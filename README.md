# Unblock Me: a verified model of the puzzle core

The program is a sliding-block puzzle on a 6 x 6 grid of 100-unit cells
placed 100 units from the window's corner, so the play area is
[100, 700] x [100, 700]. Eight rectangular blocks sit on it. A block wider
than one cell is horizontal and moves only along x; any other block is
vertical and moves only along y. One block is selected at a time. The keys
work as follows:

- `w` and `s` move a vertical selected block one cell up or down.
- `a` and `d` move a horizontal selected block one cell left or right.
- `n` selects the next block, cyclically.
- `r` restores the starting layout and selects block 0.

A move is all-or-nothing. It is rejected when the moved rectangle would leave
the grid or overlap another block. Rectangles that only touch do not overlap.
The game is won when block 7 stands at (500, 400).

The model has three modules:

- `Board` (Board.dfy) holds the constants, the `Block` record, the overlap
  test `CheckCollision` as written in the original, and the grid-bounds and
  alignment predicates.
- `Puzzle` (Puzzle.dfy) is the game as a state machine on values. It has the
  fixed starting layout, the result of a move (`MoveResult`), one key press
  (`KeyStep`), a run of key presses (`KeyPresses`) and the win test
  (`IsWon`). It also holds the lemmas about them.
- `Game` (Game.dfy) has the class `GameState`. It keeps the original's global
  block array and selection index. Its methods `InitBlock`, `Init`, `Move`
  and `Keyboard` update that state in place, and each one's postcondition ties
  the new state to the `Puzzle` functions.

Positions are `int`. The original declares them `float`, but they only ever
hold a margin plus whole multiples of the cell size.

Facts about the program that shape the model:

- Four presses of `d` do not bring block 7 from the start to (500, 400).
  Block 2 fills x in [400, 500], y in [400, 700], so the second press is
  rejected (`Puzzle.FirstRightMoveThenBlocked`).
- The axis check is in `keyboard`; `Block::Move` accepts any displacement.
  So `MoveResult` takes any (dx, dy), and `KeyStep` does the axis filtering.
- The per-block selection flag is not kept consistent, so the selection is
  an index.
- `Block::Move`'s collision loop skips the globally selected index, not the
  receiver's own index. `MoveResult` and `GameState.Move` take both indices,
  as the code does. A block other than the selected one therefore can never
  move by less than its own size, since the candidate overlaps its old place
  (`Puzzle.CanMove`). The layout properties are proved for the case the
  keyboard handler uses, where the receiver is the selected block.

## Model

| member | source | states |
|---|---|---|
| Board.DefaultBlock | GraphicsUnblockMeFree/main.cpp:93 | a default-constructed block is a one-cell vertical block with orientation agreeing with its width, and it lies off the grid, so the state is meaningful only after initialisation |
| Board.CheckCollision | GraphicsUnblockMeFree/main.cpp:99-101 | a reported collision means strict overlap on both axes; rectangles sharing only an edge (x1 + w1 == x2, x2 + w2 == x1, or the same in y) never collide |
| Board.CoversWholeCells | GraphicsUnblockMeFree/main.cpp:20-25 | a block on the grid and its lines, with sides that are multiples of the cell size, starts at a column and row of the 6 x 6 grid and spans at least one whole cell in each direction, all inside the grid |
| Board.CollisionSymmetric | GraphicsUnblockMeFree/main.cpp:99-101 | swapping the two rectangles does not change the overlap test's answer |
| Board.CollisionIsStrictIntersection | GraphicsUnblockMeFree/main.cpp:99-101 | the test reports a collision exactly when all four edge comparisons hold strictly (x1 < x2+w2, x2 < x1+w1, and the same for y) |
| Board.CollisionIffSharedPoint | GraphicsUnblockMeFree/main.cpp:99-101 | for blocks with positive size, the test reports a collision exactly when some point lies in both half-open rectangles |
| Board.MovedKeepsAlignment | GraphicsUnblockMeFree/main.cpp:241-252 | moving by whole cells keeps a block's corner congruent to the margin modulo the cell size |
| Puzzle.CanMove | GraphicsUnblockMeFree/main.cpp:202-219 | an accepted candidate is on the grid and no block other than the selected one meets it, from either side; a receiver that is not the selected block is always rejected for a displacement smaller than its own size, because the loop checks it against its own old place |
| Puzzle.MoveResult | GraphicsUnblockMeFree/main.cpp:197-223 | a move never changes sizes or orientations and changes no block but the receiver; the receiver ends at (x+dx, y+dy) exactly when the move is accepted (or the displacement is zero); a candidate off the grid, or one that overlaps any block other than the selected one, leaves every block unchanged |
| Puzzle.MovePreservesLayout | GraphicsUnblockMeFree/main.cpp:202-223 | if all blocks are on the grid, aligned and pairwise disjoint, they remain so after a whole-cell move of the selected block, whether the move is accepted or rejected |
| Puzzle.Placed | GraphicsUnblockMeFree/main.cpp:104-113 | a placed block is on the grid exactly when its margin-relative position and size fit in [0, 600] on each axis, aligned exactly when the relative position is a multiple of the cell size, and horizontal exactly when wider than a cell |
| Puzzle.InitialLayout | GraphicsUnblockMeFree/main.cpp:116-125 | the starting table has eight blocks, each made of whole cells, on the grid and its lines, and horizontal exactly when wider than a cell |
| Puzzle.InitialLayoutOk | GraphicsUnblockMeFree/main.cpp:116-125 | the starting layout has eight blocks, all inside the grid, aligned, with orientation equal to width > d, and pairwise disjoint |
| Puzzle.InitialLayoutShape | GraphicsUnblockMeFree/main.cpp:104-125 | exactly blocks 5, 6 and 7 start horizontal; block 7 starts at (100, 400) with size 200 x 100; the win test is false at the start |
| Puzzle.KeyStep | GraphicsUnblockMeFree/main.cpp:236-265 | a key press keeps eight blocks and a selection in [0, 8); only n and r change the selection; n moves no block; keys other than w, s, a, d, n, r change nothing |
| Puzzle.KeyStepPreservesInv | GraphicsUnblockMeFree/main.cpp:236-265 | every key press, including a reset, keeps the layout invariant (on the grid, aligned, disjoint) and the selection range |
| Puzzle.KeyStepAxis | GraphicsUnblockMeFree/main.cpp:240-252 | a key press other than r keeps all sizes and orientations; a horizontal block keeps its y and a vertical block its x; the other coordinate changes by 0 or exactly one cell |
| Puzzle.KeyPresses | GraphicsUnblockMeFree/main.cpp:236-270 | any run of key presses keeps eight blocks and a selection in range |
| Puzzle.KeyPressesAxis | GraphicsUnblockMeFree/main.cpp:240-252 | over any run of key presses without r, horizontal blocks keep their y, vertical blocks keep their x, and no block changes size or orientation |
| Puzzle.KeyPressesStayOnTrack | GraphicsUnblockMeFree/main.cpp:236-265 | if every block has its starting size and orientation and its starting off-axis coordinate, that stays so over any run of key presses, resets included |
| Puzzle.WholeGameAxis | GraphicsUnblockMeFree/main.cpp:240-262 | over any run of key presses from the start of the game, resets included, every block keeps its starting size and orientation, a horizontal block its starting y and a vertical block its starting x |
| Puzzle.KeyPressesPreserveInv | GraphicsUnblockMeFree/main.cpp:236-270 | from a state satisfying the invariant, any run of key presses reaches a state satisfying it |
| Puzzle.ReachableStatesOk | GraphicsUnblockMeFree/main.cpp:278-281 | any run of key presses from the start of the game reaches a state whose blocks are on the grid, aligned and pairwise disjoint, with the selection in range |
| Puzzle.SelectNextAdvances | GraphicsUnblockMeFree/main.cpp:253-256 | k presses of n advance the selection by k modulo 8 and move no block |
| Puzzle.SelectNextCycles | GraphicsUnblockMeFree/main.cpp:253-256 | eight presses of n give back the original state, and the selections after 0 to 7 presses are pairwise distinct |
| Puzzle.ResetIdempotent | GraphicsUnblockMeFree/main.cpp:259-262 | r yields the starting layout with block 0 selected from any state, so r twice equals r once |
| Puzzle.IsWon | GraphicsUnblockMeFree/main.cpp:169 | when the win test holds for the two-cell-wide block 7, that block touches the right wall of the grid in the row starting at y = 400 |
| Puzzle.SelectSeventh | GraphicsUnblockMeFree/main.cpp:253-256 | from the start, seven presses of n select block 7 and leave the layout as it is |
| Puzzle.FirstRightMoveThenBlocked | GraphicsUnblockMeFree/main.cpp:197-219 | with block 7 selected in the starting layout, the first d moves it to (200, 400); the second d would overlap block 2, so it is rejected and the game is not won |
| Game.GameState.constructor | GraphicsUnblockMeFree/main.cpp:273-278 | at program start, after the default-constructed blocks are overwritten by initialisation, the state is the starting layout with block 0 selected |
| Game.GameState.InitBlock | GraphicsUnblockMeFree/main.cpp:104-113 | block i is overwritten with the position offset by the margin, the given size, and horizontal exactly when width > d; no other block changes |
| Game.GameState.Init | GraphicsUnblockMeFree/main.cpp:116-125 | the array holds exactly the starting layout afterwards |
| Game.GameState.Move | GraphicsUnblockMeFree/main.cpp:197-232 | the result is true exactly when the candidate is on the grid and overlaps no block other than the selected one; the array is then the move's result; the win announcement happens exactly when block 7 is selected and the committed position is (500, 400) |
| Game.GameState.Keyboard | GraphicsUnblockMeFree/main.cpp:236-270 | the in-place update equals one key press on the state value, and the state stays well formed |

## Left out

- Drawing, text rendering, window setup and the GLUT callbacks (`Block::Draw`, `renderText`, `drawGrid`, `display`, `reshape`, `main`, `glutPostRedisplay`) are presentation and foreign calls. Only the win test that `display` draws from is modelled, as `Puzzle.IsWon`.
- The console output "You Win!" is I/O. `Game.GameState.Move` returns the condition under which it is printed.
- Block colours only affect drawing.
- The per-block selection flag only affects drawing. The code does not keep it consistent: `r` never clears it and `init` never sets it. The selection is modelled by its index alone.
- Floating point: positions are `float` in the original and `int` here. Every value they take is a small whole number, so no rounding can occur.
- The mouse coordinates passed to the keyboard handler are unused. Keys other than w, s, a, d, n and r do nothing.
- Game.GameState.Move: the layout properties are proved only when the receiver is the selected block, which is how the keyboard handler always calls it. A call on any other block is modelled as written; the only property proved about it is that small displacements are rejected (`Puzzle.CanMove`).
