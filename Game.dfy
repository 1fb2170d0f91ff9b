/** The running game: the array of eight blocks and the selection index that
    the original keeps as global variables, with the operations that update
    them in place. Each method is proved to follow the functions of module
    Puzzle, where the game's properties are proved. */
module Game {
  import opened Board
  import opened Puzzle

  class GameState {
    var blocks: array<Block>
    var selected: int

    /** Eight blocks and a selection that indexes one of them. */
    ghost predicate Valid()
      reads this
    {
      blocks.Length == B_QUANT && 0 <= selected < B_QUANT
    }

    /** The state as a value. */
    ghost function Model(): State
      reads this, blocks
    {
      State(blocks[..], selected)
    }

    /** Program start: every block is default-constructed and block 0 is
        selected, then the layout is initialised. */
    constructor ()
      ensures Valid() && fresh(blocks)
      ensures Model() == InitialState()
    {
      blocks := new Block[B_QUANT](_ => DefaultBlock());
      selected := 0;
      new;
      Init();
    }

    /** Overwrites block `i` with the given placement relative to the margin;
        its orientation is derived from the width. */
    method InitBlock(i: int, xAxis: int, yAxis: int, wdth: int, hght: int)
      requires 0 <= i < blocks.Length
      modifies blocks
      ensures blocks[..] == old(blocks[..])[i := Placed(xAxis, yAxis, wdth, hght)]
      ensures blocks[i].x == MARGIN + xAxis && blocks[i].y == MARGIN + yAxis
      ensures blocks[i].horizontal <==> wdth > D
    {
      blocks[i] := Block(MARGIN + xAxis, MARGIN + yAxis, wdth, hght, wdth > D);
    }

    /** Places all eight blocks at their starting positions; the selection is
        not touched. */
    method Init()
      requires blocks.Length == B_QUANT
      modifies blocks
      ensures blocks[..] == InitialLayout()
    {
      InitBlock(0, 0, 400, D, 2 * D);
      InitBlock(1, 100, 400, D, 2 * D);
      InitBlock(2, 300, 300, D, 3 * D);
      InitBlock(3, 400, 300, D, 3 * D);
      InitBlock(4, 500, 300, D, 3 * D);
      InitBlock(5, 300, 200, 3 * D, D);
      InitBlock(6, 0, 100, 2 * D, D);
      InitBlock(7, 0, 300, 2 * D, D);
    }

    /** Tries to translate block `i` by (dx, dy): rejected when the moved
        rectangle leaves the grid or overlaps any block other than the
        selected one, committed otherwise. `winLogged` is the condition under
        which the original announces the win: the move was committed while
        block 7 is selected and block `i` now stands at (500, 400). */
    method Move(i: int, dx: int, dy: int) returns (moved: bool, winLogged: bool)
      requires blocks.Length == B_QUANT && 0 <= i < B_QUANT
      modifies blocks
      ensures moved == CanMove(old(blocks[..]), selected, i, dx, dy)
      ensures blocks[..] == MoveResult(old(blocks[..]), selected, i, dx, dy)
      ensures winLogged <==> moved && selected == 7 && blocks[i].x == 500 && blocks[i].y == 400
    {
      var b := blocks[i];
      var newX := b.x + dx;
      var newY := b.y + dy;
      if newX < GRID_LEFT || newX + b.width > GRID_RIGHT || newY < GRID_BOTTOM || newY + b.height > GRID_TOP {
        return false, false;
      }
      var k := 0;
      while k < B_QUANT
        invariant 0 <= k <= B_QUANT
        invariant forall j :: 0 <= j < k && j != selected ==> !Collide(Moved(b, dx, dy), blocks[j])
      {
        if k != selected {
          if CheckCollision(newX, newY, b.width, b.height, blocks[k].x, blocks[k].y, blocks[k].width, blocks[k].height) {
            return false, false;
          }
        }
        k := k + 1;
      }
      blocks[i] := b.(x := newX, y := newY);
      moved := true;
      winLogged := selected == 7 && newX == 500 && newY == 400;
    }

    /** One key press, applied to the state in place. */
    method Keyboard(key: char)
      requires Valid()
      modifies this, blocks
      ensures Valid() && blocks == old(blocks)
      ensures Model() == KeyStep(old(Model()), key)
    {
      var horizontal := blocks[selected].horizontal;
      var moved, winLogged;
      match key
      case 'w' =>
        if !horizontal { moved, winLogged := Move(selected, 0, D); }
      case 's' =>
        if !horizontal { moved, winLogged := Move(selected, 0, -D); }
      case 'a' =>
        if horizontal { moved, winLogged := Move(selected, -D, 0); }
      case 'd' =>
        if horizontal { moved, winLogged := Move(selected, D, 0); }
      case 'n' =>
        selected := (selected + 1) % B_QUANT;
      case 'r' =>
        Init();
        selected := 0;
      case _ =>
    }
  }
}
