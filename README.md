# Rubik's cube engine: a verified model

This project models the cube-state and rotation engine of the `RubiksCube` class (`include/rubiks_cube.h`). The engine has four parts:

- **Sub-cube store.** `init` appends 27 sub-cubes. Each has a model matrix and a six-bit mask of coloured faces.
- **Move queue.** `addMove` and `shuffle` append rotation commands to a FIFO queue.
- **Rotation machine.** `initRotation` and `update` switch between idle and animating. When a turn reaches 90 degrees, `update` multiplies the model matrix of every sub-cube in the selected layer by the quarter-turn rotation.
- **Colour read-out.** `getCubeState` turns every visible local face normal by its cube's rotation. It writes the face's colour into the 3 x 3 grid of the world face that normal points to.

Every committed turn is a quarter turn about a basis axis, so the model uses exact integers instead of `glm` floats:

- A sub-cube's model matrix is a 3 x 3 integer rotation block plus a lattice translation in {-1,0,1}^3, in units of the cube spacing.
- A command is an axis (X, Y or Z) with a side and a direction, each +1 or -1.
- The float tests become exact tests. `|dot - side*spacing| < 0.1` becomes `Dot(pos, Unit(axis)) == side`. `dot(n, d) > 0.9` becomes a test on one signed component of `n`.

The modules:

- `Geometry`: integer vectors, 3 x 3 matrices and quarter turns, with their group laws.
- `Faces`: the six faces, the `colorMask` bits and signed permutation matrices.
- `Cubes`: `Cube`, `RotationConfig`, the solved configuration and `Commit`, which is what `update` does to the cubes when a turn completes. It also proves the invariant `Coherent`: the 27 cubes occupy the 27 lattice points, one each.
- `Machine`: the class's fields as a value (`Engine`), with `update` as `Step`, `addMove` as `Enqueue`, `initRotation` as `Start` and `shuffle` as `Shuffled`.
- `CubeStates`: `Color`, `colorToString` and the 54-cell colour state as `CubeStateOf`.
- `Rubiks`: the class `RubiksCube`. Its methods change its fields, and each is proved to do exactly what the value model says.

`rand()` is the parameter `rand: nat -> nat`, where `rand(k)` is the value of the k-th call made by one `shuffle`. A `CubeState` (six 3 x 3 arrays) is a sequence of 54 colours; `Slot` gives the place of `state.<face>[row][col]`.

## Model

| member | source | states |
|---|---|---|
| Rubiks.RubiksCube.constructor | include/rubiks_cube.h:57-64 | Speed and shuffle count are stored; no cubes, an empty queue, idle at angle 0 |
| Rubiks.RubiksCube.Init | include/rubiks_cube.h:66-87 | Appends the 27 solved cubes in x, y, z loop order and changes nothing else; on a fresh object the result is `Coherent` |
| Rubiks.InitialCubes | include/rubiks_cube.h:67-86 | The triple loop with its mask bits produces exactly `Solved()` |
| Cubes.MaskAt | include/rubiks_cube.h:74-81 | Mask bit f is set exactly when the point lies on side f |
| Cubes.Solved | include/rubiks_cube.h:66-87 | 27 cubes; cube i is unrotated at `Home(i)` with mask `MaskAt(Home(i))` |
| Cubes.Index | include/rubiks_cube.h:67-69 | Each lattice point has a place in the push order (`Home(Index(p)) == p`) |
| Cubes.Home | include/rubiks_cube.h:67-71 | The point of the i-th push, x outermost and z innermost: (i/9 - 1, (i/3) mod 3 - 1, i mod 3 - 1), always on the lattice |
| Cubes.IndexOfHome | include/rubiks_cube.h:67-69 | The push order visits 27 distinct points (`Index(Home(i)) == i`) |
| Cubes.HomeAt | include/rubiks_cube.h:67-83 | The cube pushed at loop point (x, y, z) is number 9(x+1)+3(y+1)+(z+1) and sits at (x, y, z) |
| Cubes.HomeCube | include/rubiks_cube.h:70-81 | The cube `init` builds at a point: identity rotation block, translation the point, mask `MaskAt` of the point (its laws are proved in `SolvedIsCoherent` and `InitialCubes`) |
| Cubes.SolvedIsCoherent | include/rubiks_cube.h:66-87 | `init` puts one unrotated cube on every lattice point |
| Cubes.MaskCensus | include/rubiks_cube.h:74-81 | `init` gives 1 cube with no coloured face, 6 with one, 12 with two and 8 with three |
| Rubiks.RubiksCube.InitRotation | include/rubiks_cube.h:89-95 | Animating, stores the command, angle 0; the queue, cubes and speed are unchanged |
| Machine.Start | include/rubiks_cube.h:89-95 | The started engine animates `cfg` from angle 0 and keeps cubes, queue and speed |
| Rubiks.RubiksCube.AddMove | include/rubiks_cube.h:97-105 | Appends the command at the tail of the queue; nothing else changes |
| Rubiks.RubiksCube.AddMoveConfig | include/rubiks_cube.h:107-109 | Appends the command at the tail of the queue; nothing else changes |
| Machine.Enqueue | include/rubiks_cube.h:97-109 | The owed turns gain `cfg` at the end |
| Machine.EnqueueOutcome | include/rubiks_cube.h:97-109 | A queued command is committed after every turn already owed |
| Rubiks.RubiksCube.Shuffle | include/rubiks_cube.h:111-132 | The queue becomes `Shuffled(old queue, rand, max(shuffleSteps, 0))`; cubes, state and angle are unchanged |
| Rubiks.DrawMove | include/rubiks_cube.h:117-127 | The three `rand()` draws of one iteration give `Draw(rand(3i), rand(3i+1), rand(3i+2))` |
| Machine.Draw | include/rubiks_cube.h:117-127 | The command of one iteration: axis X, Y or Z for a first draw of 0, 1 or 2 mod 3, direction 1 for an even second draw and -1 otherwise, side 1 for an even third draw and -1 otherwise (proved onto all twelve commands by `DrawReachesAll`) |
| Machine.Shuffled | include/rubiks_cube.h:111-132 | `n` iterations add exactly `n` commands |
| Machine.ShuffleStep | include/rubiks_cube.h:129-130 | One more iteration appends its draw at the tail |
| Machine.ShuffleKeepsQueue | include/rubiks_cube.h:111-132 | The commands queued before `shuffle` stay first, in order |
| Machine.ShuffleDraws | include/rubiks_cube.h:113-130 | The i-th appended command is made from draws 3i, 3i+1 and 3i+2 |
| Machine.DrawReachesAll | include/rubiks_cube.h:118-127 | Each of the twelve commands comes out of some draw |
| Rubiks.RubiksCube.Update | include/rubiks_cube.h:134-175 | The fields change exactly as `Step` says; positions stay on the lattice |
| Machine.Step | include/rubiks_cube.h:134-176 | One `update(dt)`: the dequeue half, then the advance half (its laws are `StepTakesHead`, `StepIdle`, `StepAdvances`, `StepCommits` and `StepKeepsOutcome`) |
| Machine.Dequeue | include/rubiks_cube.h:135-147 | Idle with a queue, the head moves from the queue into the current command; idle without one, only the speed changes. Either way the owed turns and the cubes are unchanged, and the engine animates afterwards iff it did before or the queue was non-empty |
| Machine.Advance | include/rubiks_cube.h:149-175 | Advancing the angle, and committing at the target, never touches the queue, the current command or the speed, and leaves the cubes alone or commits the current command |
| Rubiks.CommitLayer | include/rubiks_cube.h:157-169 | The commit loop turns exactly the cubes of the layer: its result is `Commit(cs, cfg)` |
| Machine.StepTakesHead | include/rubiks_cube.h:135-144 | Idle with a queue: removes the head, animates it at speed 400, and commits it in the same call if 400*dt reaches 90 |
| Machine.StepIdle | include/rubiks_cube.h:145-147 | Idle with an empty queue: only the speed changes, to 200 |
| Machine.StepAdvances | include/rubiks_cube.h:149-150 | Below the target the angle only grows by speed*dt |
| Machine.StepCommits | include/rubiks_cube.h:153-174 | At 90 or more: the layer turn is committed, idle, angle 0; queue and speed are unchanged |
| Machine.StepCubes | include/rubiks_cube.h:134-175 | One `update` commits at most one turn |
| Machine.StepKeepsOutcome | include/rubiks_cube.h:134-175 | `update` never loses, reorders or invents a turn |
| Machine.RunKeepsOutcome | include/rubiks_cube.h:134-175 | The same holds for any number of `update` calls |
| Machine.DrainsInOrder | include/rubiks_cube.h:134-175 | From idle, long enough steps commit the queue in FIFO order and empty it |
| Machine.StepKeepsCoherent | include/rubiks_cube.h:134-175 | `update` keeps the cubes `Coherent` |
| Machine.Pending | include/rubiks_cube.h:134-175 | The owed turns are the queue plus one while animating |
| Rubiks.RubiksCube.IsAnimating | include/rubiks_cube.h:201 | True exactly when one more turn is owed than is queued |
| Cubes.Commit | include/rubiks_cube.h:161-169 | The commit loop keeps the number of cubes |
| Cubes.InLayer | include/rubiks_cube.h:162-166 | The layer test: the position's component along the axis equals the side |
| Cubes.Twist | include/rubiks_cube.h:157-158 | The sense of the quarter turn about the basis axis: +1 when side and direction agree, -1 otherwise |
| Cubes.TurnOf | include/rubiks_cube.h:157-158 | The committed rotation matrix of a command: the quarter turn about its axis in the sense `Twist` gives |
| Cubes.Turned | include/rubiks_cube.h:167 | `rotation * cube.model`: the rotation block is multiplied by the turn, the translation turned, the mask kept |
| Cubes.TwistIsProduct | include/rubiks_cube.h:157-158 | Turning by `direction` about `axis*side` is turning by `side*direction` about `axis` |
| Cubes.TurnedKeepsLayer | include/rubiks_cube.h:157-167 | A turned cube keeps its coordinate along the axis, so it stays in its layer |
| Cubes.CommitMovesExactlyLayer | include/rubiks_cube.h:161-169 | In a reachable configuration a cube changes if and only if it lies in the layer |
| Cubes.LayerHasNine | include/rubiks_cube.h:161-169 | In a reachable configuration every layer holds exactly 9 cubes |
| Cubes.CommitKeepsCoherent | include/rubiks_cube.h:157-169 | A committed turn permutes the 27 lattice positions; every cube keeps its origin and mask |
| Cubes.CommitKeepsLattice | include/rubiks_cube.h:157-169 | A committed turn keeps every position on the lattice |
| Cubes.CommitKeepsDistinct | include/rubiks_cube.h:157-169 | A committed turn keeps positions pairwise distinct |
| Cubes.CommitKeepsOccupied | include/rubiks_cube.h:157-169 | After a committed turn every lattice point is still occupied |
| Cubes.CommitFour | include/rubiks_cube.h:157-169 | The same turn four times restores every position and orientation |
| Cubes.CommitUndo | include/rubiks_cube.h:157-169 | A turn followed by the same axis and side in the other direction restores every cube |
| Cubes.Turns | include/rubiks_cube.h:157-169 | Committing a list of moves keeps the number of cubes |
| Cubes.TurnsAppend | include/rubiks_cube.h:157-169 | Committing `a + b` is committing `a`, then `b` |
| Cubes.UndoRestores | include/rubiks_cube.h:157-169 | The reversed, inverted move list undoes any move list |
| Cubes.TurnsKeepCoherent | include/rubiks_cube.h:157-169 | Any sequence of committed turns keeps the cubes `Coherent` |
| Geometry.TurnKeepsLayer | include/rubiks_cube.h:157-167 | A quarter turn fixes the component along its axis |
| Geometry.QuarterTurn | include/rubiks_cube.h:157-158 | The rotation `glm::rotate` builds for `t` * 90 degrees about a basis axis, with cos 90 = 0 and sin 90 = 1 exact (its action is stated by `ApplyTurn`) |
| Geometry.TurnKeepsLattice | include/rubiks_cube.h:157-167 | A quarter turn maps lattice points to lattice points |
| Geometry.ApplyTurn | include/rubiks_cube.h:157-158 | The rotation matrix swaps the two cross components, one with a sign change |
| Geometry.MulTurn | include/rubiks_cube.h:167 | `rotation * model` permutes and signs the rows of the model block |
| Geometry.TurnFour | include/rubiks_cube.h:157-158 | Four equal quarter turns are the identity on points and matrices |
| Geometry.TurnUndo | include/rubiks_cube.h:157-158 | Opposite quarter turns about one axis cancel |
| Geometry.TurnApplyMul | include/rubiks_cube.h:162-167 | Turning a transformed point is transforming it by the turned matrix |
| Faces.TurnKeepsSignedPerm | include/rubiks_cube.h:167 | A committed turn keeps every rotation block a signed permutation |
| Faces.TurnMovesOrientation | include/rubiks_cube.h:167 | A quarter turn changes the orientation of every cube it applies to |
| Faces.Normal | include/rubiks_cube.h:219-226 | The `localNormals` table: face f's normal points along its axis with its sign |
| Faces.FaceAt | include/rubiks_cube.h:74 | The face of each mask bit, the inverse of `Bit` |
| Faces.ImageFaceInjective | include/rubiks_cube.h:238-243 | Two local faces of one cube never turn to the same world face |
| Faces.ApplyNormal | include/rubiks_cube.h:243 | A turned local normal is the normal of a world face |
| Rubiks.RubiksCube.GetCubeState | include/rubiks_cube.h:203-285 | The loops return exactly `CubeStateOf(cubes)` |
| Rubiks.BlackState | include/rubiks_cube.h:206-216 | All 54 cells are BLACK after the first loops |
| Rubiks.PaintCube | include/rubiks_cube.h:238-281 | One cube's face loop paints its faces in bit order, as `PaintFaces` says |
| CubeStates.Blank | include/rubiks_cube.h:206-216 | The state before any sticker: 54 cells, every one BLACK |
| CubeStates.Writes | include/rubiks_cube.h:241-280 | Local face f of a cube writes cell k: its mask bit is set, the cube is on the lattice, and the first world direction its turned normal points along selects cell k |
| CubeStates.PaintFaces | include/rubiks_cube.h:240-281 | The face loop of one cube, bits 0 to n-1 in order; keeps 54 cells |
| CubeStates.PaintAll | include/rubiks_cube.h:233-282 | The cube loop, cubes in order; keeps 54 cells |
| CubeStates.CubeStateOf | include/rubiks_cube.h:203-285 | What `getCubeState` returns: every cube painted in order over the BLACK state; 54 cells |
| CubeStates.ColorToString | include/rubiks_cube.h:35-46 | Every colour is one letter, and "X" is exactly BLACK |
| CubeStates.ColorToStringInjective | include/rubiks_cube.h:35-46 | Different colours print differently |
| CubeStates.LocalColor | include/rubiks_cube.h:229-231 | No local face is BLACK |
| CubeStates.LocalColorInjective | include/rubiks_cube.h:229-231 | The six faces have six different colours |
| CubeStates.Slot | include/rubiks_cube.h:26-33 | Every cell of the six grids has a place among the 54 |
| CubeStates.CellAt | include/rubiks_cube.h:26-33 | Every one of the 54 places is a cell (the inverse of `Slot`) |
| CubeStates.SlotInjective | include/rubiks_cube.h:26-33 | Different cells have different places |
| CubeStates.Sticker | include/rubiks_cube.h:245-280 | Every row and column the six branches write on a lattice cube lies in 0..2 |
| CubeStates.StickerOfNormal | include/rubiks_cube.h:245-280 | A normal along world face w is written into w's grid |
| CubeStates.CellPoint | include/rubiks_cube.h:245-280 | Every cell of a world face is the target of one lattice point on that side |
| CubeStates.StickerCellInjective | include/rubiks_cube.h:245-280 | On one world face, different lattice points write different cells |
| CubeStates.Paint | include/rubiks_cube.h:240-280 | One face writes its colour into its cell and nowhere else |
| CubeStates.PaintFacesOnly | include/rubiks_cube.h:240-281 | A cell written by exactly one face of a cube ends with that face's colour |
| CubeStates.PaintAllOnly | include/rubiks_cube.h:233-282 | A cell written by exactly one face of one cube ends with that colour |
| CubeStates.PaintAllKeeps | include/rubiks_cube.h:233-282 | A cell no cube writes stays as it was |
| CubeStates.CellWrittenOnce | include/rubiks_cube.h:233-282 | In a reachable configuration no cell is written twice |
| CubeStates.EveryCellWritten | include/rubiks_cube.h:233-282 | In a reachable configuration every one of the 54 cells is written |
| CubeStates.CellColor | include/rubiks_cube.h:203-285 | Each cell is written exactly once and shows that face's colour, never BLACK |
| CubeStates.NoBlackAfterTurns | include/rubiks_cube.h:203-285 | After any sequence of completed turns from `init`, no cell is BLACK |
| CubeStates.SolvedFacesUniform | include/rubiks_cube.h:203-285 | On a fresh cube: front GREEN, back BLUE, left ORANGE, right RED, top WHITE, bottom YELLOW |
| CubeStates.UnturnedUniform | include/rubiks_cube.h:203-285 | Whenever no cube is rotated, every face is uniform in its own colour |
| CubeStates.ShowsWriter | include/rubiks_cube.h:233-282 | In a reachable configuration a cell shows the colour of any face that writes it |
| CubeStates.KeptWriter | include/rubiks_cube.h:161-169 | After one turn from `init`, a cell outside the turned layer is written by the unturned cube under it, with the cell's own face |
| CubeStates.TurnedWriter | include/rubiks_cube.h:157-167 | After one turn from `init`, a cell inside the turned layer is written by the cube turned onto it, with the face that turning back carries onto the cell's face |
| CubeStates.OneTurnColor | include/rubiks_cube.h:153-285 | After one committed turn from `init`, a cell keeps its face's colour outside the turned layer and inside it shows the colour of the face the turn brought there |
| CubeStates.FrontTurnState | include/rubiks_cube.h:157-285 | After the front turn (z, side 1, direction -1) from `init`: front all GREEN, back all BLUE, top row 2 ORANGE, right column 0 WHITE, bottom row 0 RED, left column 2 YELLOW, every other cell its face's colour |
| Machine.KeyCommands | src/main.cpp:244-291 | The key table holds twelve commands |
| Machine.KeyCommandsAreAll | src/main.cpp:244-291 | The twelve key commands are distinct, and every legal command is one of them |
| Machine.FrontKeyIsClockwise | src/main.cpp:244-247 | Key 1 is the -90 degree turn about z, which moves the front face clockwise |

## Left out

- `draw` (include/rubiks_cube.h:178-199): it only renders through OpenGL calls and does not change the object.
- `printCubeState` (include/rubiks_cube.h:287-303): console output only; the letters it prints are `ColorToString`.
- The shader, camera and window code (`src/shader.cpp`, `src/camera.cpp`, `include/camera.h`, the render loop and callbacks of `src/main.cpp`): they are not part of this model. Of `src/main.cpp`, only the key-to-command table is kept, as `KeyCommands`.
- Floating point: the 1.02 cube spacing, `glm::rotate` rounding and the 0.1 / 0.9 tolerances. Positions are exact lattice points in spacing units and rotations exact integer matrices, so rounding drift over many turns is not modelled.
- The angle and speed are `real`. The 32-bit float sum `m_currentAngle += m_rotationSpeed * deltaTime` and its rounding are not modelled.
- `rand()` is an oracle parameter. Its statistics, including how uniform the shuffle is, are left out.
- Rubiks.RubiksCube.AddMove: the axis is one of X, Y and Z and side and direction are +1 or -1. The source accepts any `glm::vec3` and any `int`, but only ever passes these twelve commands.
- Rubiks.RubiksCube.constructor: the command fields start with a placeholder command (X, 1, 1). The source starts them at a zero axis with side and direction 0, and never reads them before a command is installed.
- The `"?"` default branch of `colorToString` is unreachable for the seven colours, so `ColorToString` has no such case.
- The layer test treats `side` as exact, so a position must lie exactly on the layer rather than within 0.1 of it.
- Rubiks.CommitLayer: it rebuilds the cube sequence value rather than updating `cube.model` in place through a reference. The result is the same, because no other cube is read while one is updated.
- Rubiks.RubiksCube.GetCubeState: it requires every cube on the lattice (`Valid`), which every reachable configuration satisfies. The source would index a grid out of range for a cube off the lattice.
- A `CubeState` is one sequence of 54 colours, with `Slot` giving the place of `state.<face>[row][col]`, instead of six 3 x 3 arrays.
- Calling `init` twice appends a second set of 27 cubes, as the source does. Only the first call is proved to give a `Coherent` configuration.
- Direct key presses (`initRotation`) leave the speed unchanged. The code sets the 200 degrees/s speed only in an idle `update` with an empty queue, and the model follows the code, not a description in which a key press itself selects that speed.
