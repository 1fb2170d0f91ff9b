/** The board of the sliding-block puzzle: grid constants, a block's rectangle,
    the strict overlap test and the grid's bounds. Positions are integers:
    the original declares them as floats, but they only ever hold small
    whole numbers (a margin plus multiples of the cell size). */
module Board {

  /** Offset of the grid from the window's origin. */
  const MARGIN: int := 100
  /** Edge length of one grid cell. */
  const D: int := 100
  /** Grid size in cells. */
  const NUM_X: int := 6
  const NUM_Y: int := 6
  /** Number of blocks on the board. */
  const B_QUANT: int := 8

  /** Grid boundaries, as computed when a move is checked. */
  const GRID_LEFT: int := MARGIN
  const GRID_RIGHT: int := MARGIN + NUM_X * D
  const GRID_BOTTOM: int := MARGIN
  const GRID_TOP: int := MARGIN + NUM_Y * D

  /** A block: lower-left corner (x, y), size, and the orientation flag that
      initialisation derives from the width. Colours and the selection flag
      only affect drawing and are not modelled. */
  datatype Block = Block(x: int, y: int, width: int, height: int, horizontal: bool)

  /** What the default constructor of a block leaves in it: a one-cell
      vertical block at the origin, which lies off the grid, so the game
      only makes sense once the layout has been initialised. */
  function DefaultBlock(): (b: Block)
    ensures NonEmpty(b) && b.horizontal == (b.width > D)
    ensures !InGrid(b)
  {
    Block(0, 0, D, D, false)
  }

  /** The overlap test, written as the original writes it: the two rectangles
      collide unless one lies entirely to one side of the other. A reported
      collision means the two rectangles overlap strictly on both axes, and
      rectangles that only share an edge never collide. */
  function CheckCollision(x1: int, y1: int, width1: int, height1: int,
                          x2: int, y2: int, width2: int, height2: int): (r: bool)
    ensures r ==> x1 < x2 + width2 && x2 < x1 + width1 && y1 < y2 + height2 && y2 < y1 + height1
    ensures x1 + width1 == x2 || x2 + width2 == x1 || y1 + height1 == y2 || y2 + height2 == y1 ==> !r
  {
    !(x1 + width1 <= x2 || x1 >= x2 + width2 || y1 + height1 <= y2 || y1 >= y2 + height2)
  }

  /** The overlap test applied to two blocks. */
  predicate Collide(a: Block, b: Block)
  {
    CheckCollision(a.x, a.y, a.width, a.height, b.x, b.y, b.width, b.height)
  }

  /** The half-open cell [x, x + width) x [y, y + height) of a block holds the point. */
  predicate Covers(b: Block, px: int, py: int)
  {
    b.x <= px < b.x + b.width && b.y <= py < b.y + b.height
  }

  /** The block has a non-empty area. */
  predicate NonEmpty(b: Block)
  {
    b.width > 0 && b.height > 0
  }

  /** The block lies entirely inside the grid. */
  predicate InGrid(b: Block)
  {
    GRID_LEFT <= b.x && b.x + b.width <= GRID_RIGHT &&
    GRID_BOTTOM <= b.y && b.y + b.height <= GRID_TOP
  }

  /** The block's corner sits on a grid line in both axes. */
  predicate Aligned(b: Block)
  {
    b.x % D == MARGIN % D && b.y % D == MARGIN % D
  }

  /** The block translated by (dx, dy); size and orientation are kept. */
  function Moved(b: Block, dx: int, dy: int): Block
  {
    b.(x := b.x + dx, y := b.y + dy)
  }

  /** A block that lies on the grid and on its lines, and whose sides are
      whole multiples of the cell size, covers whole cells: it starts at
      column `col` and row `row` of the 6 x 6 grid and spans width / D
      columns and height / D rows, all inside the grid. */
  lemma CoversWholeCells(b: Block)
    requires NonEmpty(b) && InGrid(b) && Aligned(b) && b.width % D == 0 && b.height % D == 0
    ensures var col, row := (b.x - MARGIN) / D, (b.y - MARGIN) / D;
      b.x == MARGIN + col * D && b.y == MARGIN + row * D &&
      0 <= col && col + b.width / D <= NUM_X && 0 <= row && row + b.height / D <= NUM_Y &&
      1 <= b.width / D && 1 <= b.height / D
  {
    var col, row := (b.x - MARGIN) / D, (b.y - MARGIN) / D;
    assert b.x - MARGIN == col * D + (b.x - MARGIN) % D;
    assert (b.x - MARGIN) % D == 0;
    assert b.y - MARGIN == row * D + (b.y - MARGIN) % D;
    assert (b.y - MARGIN) % D == 0;
    assert b.width == (b.width / D) * D;
    assert b.height == (b.height / D) * D;
  }

  /** The overlap test does not depend on the order of its two rectangles. */
  lemma CollisionSymmetric(x1: int, y1: int, width1: int, height1: int,
                           x2: int, y2: int, width2: int, height2: int)
    ensures CheckCollision(x1, y1, width1, height1, x2, y2, width2, height2)
        == CheckCollision(x2, y2, width2, height2, x1, y1, width1, height1)
  {
  }

  /** The overlap test is the strict bounding-box intersection: every one of
      the four edge comparisons is strict. */
  lemma CollisionIsStrictIntersection(x1: int, y1: int, width1: int, height1: int,
                                      x2: int, y2: int, width2: int, height2: int)
    ensures CheckCollision(x1, y1, width1, height1, x2, y2, width2, height2)
        <==> (x1 < x2 + width2 && x2 < x1 + width1 && y1 < y2 + height2 && y2 < y1 + height1)
  {
  }

  /** For blocks with an area, the overlap test agrees with the geometric
      meaning: the blocks collide exactly when some point lies in both. */
  lemma CollisionIffSharedPoint(a: Block, b: Block)
    requires NonEmpty(a) && NonEmpty(b)
    ensures Collide(a, b) <==> exists px, py :: Covers(a, px, py) && Covers(b, px, py)
  {
    if Collide(a, b) {
      var px := if a.x < b.x then b.x else a.x;
      var py := if a.y < b.y then b.y else a.y;
      assert Covers(a, px, py) && Covers(b, px, py);
    }
    if exists px, py :: Covers(a, px, py) && Covers(b, px, py) {
      var px, py :| Covers(a, px, py) && Covers(b, px, py);
      assert a.x < b.x + b.width && b.x < a.x + a.width;
    }
  }

  /** A translation by whole cells keeps a block on the grid lines. */
  lemma MovedKeepsAlignment(b: Block, dx: int, dy: int)
    requires Aligned(b) && dx % D == 0 && dy % D == 0
    ensures Aligned(Moved(b, dx, dy))
  {
  }
}
