# Rubik's cube state engine

A Dafny model of the `RubiksCube` class of the cube playground client. The
class holds the state of a 3x3x3 puzzle as a list `pieces` of 26 cubelets.
Each cubelet has an integer position `[x, y, z]` with coordinates in
{-1, 0, 1}, and a six-entry colour list indexed `[+x, -x, +y, -y, +z, -z]`
(right, left, top, bottom, front, back). The class has four operations:

- `initialize` fills `pieces` with the solved state;
- `rotateSide(side, direction)` turns the slab of nine cubelets that a side
  names by a quarter turn;
- `scramble` makes 20 such turns;
- `solve` calls `initialize`.

The repository has two copies of the class, `client/src/utils/Cube.ts` and
`client/src/utils/Cube.tsx`. They differ only in comments and in a
`console.log` call. The table below cites `Cube.ts`. In `Cube.tsx` the same
code is at these lines:

- `initialize`: 10-33
- `rotateSide`: 36-77
- `scramble`: 80-90
- `solve`: 93-97

The files are:

- `geometry.dfy` (module `Geometry`) holds positions, axes, directions and
  the quarter-turn position transform. It also names the six faces of a
  cubelet and gives the face that each face is turned onto.
- `pieces.dfy` (module `Pieces`) holds colours, cubelets and the side table
  (`sideMap`). It has the colour permutation, the callback of
  `rotateSide`'s `map` (`RotatePiece`) and the whole-list transform (`Turn`).
- `solved.dfy` (module `SolvedState`) holds the solved state that
  `initialize` builds: the cell order and the colour rule.
- `state.dfy` (module `CubeState`) holds the state invariant: the 26 cells
  are each occupied once, and non-gray colours sit exactly on outside faces.
  It proves that `rotateSide` and any sequence of moves keep the invariant.
- `cube.dfy` (module `Engine`) holds the class `RubiksCube`. Its `pieces`
  field is a `seq<Piece>`. `Initialize` builds the state with the source's
  three nested loops. `RotateSide` reassigns `pieces`, as the source's `map`
  does. `Scramble` loops 20 times over `RotateSide`.

Sides, directions and colours are datatypes. The source's string-keyed side
table and its string unions therefore become total functions, and a side or
direction outside the six or two known names cannot be represented.

A turn's sense depends only on its axis, as in the code. For example, `front`
and `back` clockwise both map `(x, y)` to `(-y, x)`. The code does not define
clockwise as seen from outside each face, and the model follows the code.

The colour permutations were checked against the position transforms. For
every turn, the face a colour is moved to is the face whose outward normal is
the turned normal of its old face (`ColoursFollowGeometry` together with
`FaceAfterTurnsNormal`). In `Cube.tsx` the comments at lines 57 and 68
describe the reverse cycle of the code beside them. The model follows the
code.

## Model

| member | source | states |
|---|---|---|
| Geometry.RotatePosition | client/src/utils/Cube.ts:47-63 | the quarter-turn position transform keeps the axis coordinate (the cubelet stays in its slab) and maps cells of {-1,0,1}^3 minus the centre to cells |
| Geometry.RotatePositionInverse | client/src/utils/Cube.ts:51-63 | a clockwise turn of a position and a counterclockwise turn about the same axis undo each other, in either order |
| Geometry.RotatePositionFourTimes | client/src/utils/Cube.ts:51-63 | four quarter turns of a position in the same direction are the identity |
| Geometry.FaceAfterTurnsNormal | client/src/utils/Cube.ts:50-67 | the face table is the position transform applied to the face normals |
| Geometry.FaceAfterKeepsAxis | client/src/utils/Cube.ts:52-66 | a turn about an axis keeps that axis's two faces in place and moves each of the other four faces to a different face off the axis |
| Geometry.NormalInjective | client/src/utils/Cube.ts:18-25 | different faces have different normals |
| Geometry.FaceAfterInverse | client/src/utils/Cube.ts:50-67 | turning the other way sends every face back to where it was |
| Geometry.ExtentMovesWithFace | client/src/utils/Cube.ts:50-67 | a cubelet's extent along a face normal moves with that face, so outside faces stay outside |
| Pieces.SlabOf | client/src/utils/Cube.ts:34-43 | the side table names an outer slab, layer +1 or -1 |
| Pieces.SlabOfOneToOne | client/src/utils/Cube.ts:34-41 | different sides name different slabs |
| Pieces.SlabOfOnto | client/src/utils/Cube.ts:34-41 | each of the six outer slabs is named by a side |
| Pieces.RotateColors | client/src/utils/Cube.ts:52-66 | the colour permutation keeps the two entries of the rotation axis in place (x: 0,1; y: 2,3; z: 4,5) |
| Pieces.ColoursFollowGeometry | client/src/utils/Cube.ts:50-67 | after a turn, the face that a face was turned onto shows the colour that face showed before |
| Pieces.RotateColorsInverse | client/src/utils/Cube.ts:52-66 | the clockwise and counterclockwise colour permutations of an axis undo each other |
| Pieces.RotateColorsHalfTurn | client/src/utils/Cube.ts:52-66 | two colour permutations one way equal two the other way |
| Pieces.RotateColorsFourTimes | client/src/utils/Cube.ts:52-66 | four colour permutations the same way are the identity |
| Pieces.RotatePiece | client/src/utils/Cube.ts:45-72 | a cubelet off the side's slab is returned unchanged; a turned cubelet stays in the slab and keeps its axis colours |
| Pieces.RotatePieceInjective | client/src/utils/Cube.ts:46-72 | two cubelets that a turn puts on one position started on one position |
| Pieces.RotatePieceInverse | client/src/utils/Cube.ts:46-72 | turning a side one way and then the other restores the cubelet's position and colours |
| Pieces.RotatePieceFourTimes | client/src/utils/Cube.ts:46-72 | four turns of a side the same way restore the cubelet |
| Pieces.RotatePieceKeepsOutward | client/src/utils/Cube.ts:46-72 | if a cubelet's non-gray colours are exactly on its outside faces, they still are after a turn |
| Pieces.Turn | client/src/utils/Cube.ts:45-73 | rotateSide keeps the list's length and order, returns every cubelet off the slab unchanged, and keeps every cubelet's axis coordinate |
| Pieces.TurnInverse | client/src/utils/Cube.ts:45-73 | clockwise then counterclockwise on the same side, or the reverse order, restores every position and colour list |
| Pieces.TurnFourTimes | client/src/utils/Cube.ts:45-73 | four turns of the same side in the same direction restore the state |
| SolvedState.CellAt | client/src/utils/Cube.ts:13-16 | the k-th cell that initialize visits is a cell other than the centre, and k is its rank |
| SolvedState.CellAtRank | client/src/utils/Cube.ts:13-27 | every cell is visited, at the index given by its rank |
| SolvedState.RankMonotone | client/src/utils/Cube.ts:13-15 | ranks follow the x-then-y-then-z order of the loops |
| SolvedState.SolvedPrefixGrows | client/src/utils/Cube.ts:27 | pushing the next cell's cubelet extends the solved prefix by one |
| SolvedState.FaceColour | client/src/utils/Cube.ts:19-24 | each face has its own puzzle colour, never gray |
| SolvedState.SolvedColours | client/src/utils/Cube.ts:18-25 | each face shows its colour when it lies on the outside of the puzzle and gray otherwise: red iff x = 1, orange iff x = -1, white iff y = 1, yellow iff y = -1, blue iff z = 1, green iff z = -1 |
| SolvedState.Solved | client/src/utils/Cube.ts:12-30 | the solved state has 26 cubelets |
| CubeState.SolvedIsValid | client/src/utils/Cube.ts:12-30 | the solved state holds each cell once, in x-then-y-then-z order, with non-gray colours exactly on outside faces |
| CubeState.TurnKeepsCells | client/src/utils/Cube.ts:45-73 | rotateSide keeps the 26 cells occupied once each |
| CubeState.TurnKeepsDistinct | client/src/utils/Cube.ts:45-73 | a turn never puts two cubelets on one position |
| CubeState.TurnKeepsCover | client/src/utils/Cube.ts:45-73 | a turn leaves every cell occupied if every cell was occupied before |
| CubeState.TurnKeepsOutward | client/src/utils/Cube.ts:45-73 | rotateSide keeps non-gray colours exactly on outside faces |
| CubeState.CellsOnceCounts | client/src/utils/Cube.ts:12-30 | in a valid state every cell occurs exactly once among the positions and nothing else occurs |
| CubeState.TurnKeepsPositions | client/src/utils/Cube.ts:45-73 | on a valid state, rotateSide leaves the multiset of positions unchanged |
| CubeState.ApplyMovesKeepsValid | client/src/utils/Cube.ts:79-85 | any sequence of turns, such as scramble's 20, keeps the state invariant |
| Engine.RubiksCube.constructor | client/src/utils/Cube.ts:6-9 | a new puzzle is valid and solved |
| Engine.RubiksCube.Initialize | client/src/utils/Cube.ts:11-31 | whatever the previous state, pieces becomes the solved state, which is valid |
| Engine.RubiksCube.RotateSide | client/src/utils/Cube.ts:33-74 | pieces becomes the turned list, and the state stays valid |
| Engine.RubiksCube.Scramble | client/src/utils/Cube.ts:76-86 | the 20 given moves are applied in order, the state stays valid after each, and the result is returned |
| Engine.RubiksCube.Solve | client/src/utils/Cube.ts:88-92 | pieces becomes the solved state, which is returned |

## Left out

- The random choice in `scramble` (`Math.random`, client/src/utils/Cube.ts:80-81) is left out. `Engine.RubiksCube.Scramble` takes the 20 (side, direction) moves as a parameter, and its properties hold for any such moves.
- The `console.log` call in the `.tsx` copy is left out. It prints the axis and does not touch the state.
- JavaScript's `-0` from negating a zero coordinate is not modelled. It compares equal to `0` under `===`, so coordinates are plain integers.
- Engine.RubiksCube.RotateSide and Engine.RubiksCube.Scramble require the class invariant `Valid()`. The source states no invariant, but only the constructor, `initialize` and `rotateSide` ever assign `pieces`, and all of them keep it.
- The React and three.js collaborators are not part of this model: the interactive cube component, the side picking from pointer hits, cubelet rendering and the application root. They are rendering and input handling that call this core.
- The type `Cube.Interface` imported by `Cube.ts` is not part of this model. Its cubelet shape is taken from the inline type in `Cube.tsx`.
