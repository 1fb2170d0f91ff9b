/** The puzzle as a state machine on values: the fixed initial layout, the
    all-or-nothing move, the keyboard commands and the win test. The class in
    module Game updates its array in place and is proved to follow these
    functions; the properties of the game are proved here about them. */
module Puzzle {
  import opened Board

  /** The puzzle's state: the eight blocks, by index, and the selected index. */
  datatype State = State(blocks: seq<Block>, selected: int)

  /** Eight blocks and a selection that indexes one of them. */
  predicate WellFormed(s: State)
  {
    |s.blocks| == B_QUANT && 0 <= s.selected < B_QUANT
  }

  /** A block as initialisation writes it: placed relative to the margin,
      horizontal exactly when wider than one cell. */
  function Placed(xAxis: int, yAxis: int, wdth: int, hght: int): (r: Block)
    ensures InGrid(r) <==> 0 <= xAxis && xAxis + wdth <= NUM_X * D && 0 <= yAxis && yAxis + hght <= NUM_Y * D
    ensures Aligned(r) <==> xAxis % D == 0 && yAxis % D == 0
    ensures r.horizontal == (r.width > D)
  {
    Block(MARGIN + xAxis, MARGIN + yAxis, wdth, hght, wdth > D)
  }

  /** The fixed starting layout, block 0 to block 7: eight blocks, each of
      whole cells on the grid, horizontal exactly when wider than a cell. */
  function InitialLayout(): (r: seq<Block>)
    ensures |r| == B_QUANT
    ensures forall k :: 0 <= k < |r| ==>
      NonEmpty(r[k]) && InGrid(r[k]) && Aligned(r[k]) && r[k].horizontal == (r[k].width > D) &&
      r[k].width % D == 0 && r[k].height % D == 0
  {
    [ Placed(0, 400, D, 2 * D),
      Placed(100, 400, D, 2 * D),
      Placed(300, 300, D, 3 * D),
      Placed(400, 300, D, 3 * D),
      Placed(500, 300, D, 3 * D),
      Placed(300, 200, 3 * D, D),
      Placed(0, 100, 2 * D, D),
      Placed(0, 300, 2 * D, D) ]
  }

  /** The state after a reset: the initial layout with block 0 selected. */
  function InitialState(): State
  {
    State(InitialLayout(), 0)
  }

  /** No block other than the one at index `skip` overlaps `cand`. */
  predicate FreeOf(blocks: seq<Block>, skip: int, cand: Block)
  {
    forall j :: 0 <= j < |blocks| && j != skip ==> !Collide(cand, blocks[j])
  }

  /** The move of block `i` by (dx, dy) is accepted: its translated rectangle
      stays on the grid and meets no block other than the selected one. An
      accepted candidate is not met by any other block either, seen from that
      block's side. Because the check skips the selected index and not the
      receiver's own, a block that is not the selected one can never be moved
      by less than its own size: the candidate overlaps its old place. */
  predicate CanMove(blocks: seq<Block>, selected: int, i: int, dx: int, dy: int)
    requires 0 <= i < |blocks|
    ensures CanMove(blocks, selected, i, dx, dy) ==>
      InGrid(Moved(blocks[i], dx, dy)) &&
      forall j :: 0 <= j < |blocks| && j != selected ==> !Collide(blocks[j], Moved(blocks[i], dx, dy))
    ensures i != selected && NonEmpty(blocks[i]) &&
            -blocks[i].width < dx < blocks[i].width && -blocks[i].height < dy < blocks[i].height ==>
            !CanMove(blocks, selected, i, dx, dy)
  {
    var cand := Moved(blocks[i], dx, dy);
    var ok := InGrid(cand) && FreeOf(blocks, selected, cand);
    assert ok ==> forall j :: 0 <= j < |blocks| && j != selected ==> !Collide(blocks[j], cand) by {
      if ok {
        forall j | 0 <= j < |blocks| && j != selected ensures !Collide(blocks[j], cand) {
          CollisionSymmetric(cand.x, cand.y, cand.width, cand.height,
                             blocks[j].x, blocks[j].y, blocks[j].width, blocks[j].height);
        }
      }
    }
    assert i != selected ==> (Collide(cand, blocks[i]) ==> !ok);
    ok
  }

  /** The blocks after an attempted move of block `i`: sizes and orientations
      never change, every block other than `i` stays put, and block `i` ends
      translated by exactly (dx, dy) when the move is accepted (or the
      displacement is zero) and stays put otherwise; a candidate off the grid,
      or one that overlaps any block other than the selected one, leaves
      every block unchanged. */
  function MoveResult(blocks: seq<Block>, selected: int, i: int, dx: int, dy: int): (r: seq<Block>)
    requires 0 <= i < |blocks|
    ensures |r| == |blocks|
    ensures forall k :: 0 <= k < |r| ==>
      r[k].width == blocks[k].width && r[k].height == blocks[k].height &&
      r[k].horizontal == blocks[k].horizontal
    ensures forall k :: 0 <= k < |r| && k != i ==> r[k] == blocks[k]
    ensures r[i] == Moved(blocks[i], dx, dy) <==> (dx == 0 && dy == 0) || CanMove(blocks, selected, i, dx, dy)
    ensures !InGrid(Moved(blocks[i], dx, dy)) ==> r == blocks
    ensures forall j :: 0 <= j < |blocks| && j != selected && Collide(Moved(blocks[i], dx, dy), blocks[j]) ==> r == blocks
  {
    if CanMove(blocks, selected, i, dx, dy) then blocks[i := Moved(blocks[i], dx, dy)] else blocks
  }

  /** A move of the selected block within the state. */
  function MoveSelected(s: State, dx: int, dy: int): State
    requires WellFormed(s)
  {
    s.(blocks := MoveResult(s.blocks, s.selected, s.selected, dx, dy))
  }

  /** One key press: w/s move the selected block by one cell along y and only
      when it is vertical, a/d along x and only when it is horizontal, n
      selects the next block cyclically, r resets; other keys do nothing. */
  function KeyStep(s: State, key: char): (r: State)
    requires WellFormed(s)
    ensures WellFormed(r)
    ensures key != 'n' && key != 'r' ==> r.selected == s.selected
    ensures key == 'n' ==> r.blocks == s.blocks
    ensures key !in "wsadnr" ==> r == s
  {
    var vertical := !s.blocks[s.selected].horizontal;
    match key
    case 'w' => if vertical then MoveSelected(s, 0, D) else s
    case 's' => if vertical then MoveSelected(s, 0, -D) else s
    case 'a' => if !vertical then MoveSelected(s, -D, 0) else s
    case 'd' => if !vertical then MoveSelected(s, D, 0) else s
    case 'n' => s.(selected := (s.selected + 1) % B_QUANT)
    case 'r' => InitialState()
    case _ => s
  }

  /** A sequence of key presses, applied from left to right. */
  function KeyPresses(s: State, keys: seq<char>): (r: State)
    requires WellFormed(s)
    ensures WellFormed(r)
    decreases |keys|
  {
    if keys == [] then s
    else KeyPresses(KeyStep(s, keys[0]), keys[1..])
  }

  /** The game is won when block 7 stands at (500, 400). Block 7 is two
      cells wide, so it then touches the right wall of the grid in the row
      of cells starting at y = 400. */
  predicate IsWon(blocks: seq<Block>)
    requires |blocks| == B_QUANT
    ensures IsWon(blocks) && blocks[7].width == 2 * D ==>
      blocks[7].x + blocks[7].width == GRID_RIGHT && blocks[7].y == MARGIN + 3 * D
  {
    blocks[7].x == 500 && blocks[7].y == 400
  }

  /** The layout invariant: every block has an area, lies on the grid and on
      its lines, is horizontal exactly when wider than a cell, and no two
      distinct blocks overlap. */
  predicate LayoutOk(blocks: seq<Block>)
  {
    (forall k :: 0 <= k < |blocks| ==>
       NonEmpty(blocks[k]) && InGrid(blocks[k]) && Aligned(blocks[k]) &&
       blocks[k].horizontal == (blocks[k].width > D)) &&
    (forall j, k :: 0 <= j < |blocks| && 0 <= k < |blocks| && j != k ==> !Collide(blocks[j], blocks[k]))
  }

  /** The invariant of every state the game reaches. */
  predicate Inv(s: State)
  {
    WellFormed(s) && LayoutOk(s.blocks)
  }

  // ---------------------------------------------------------------------
  // Moves

  /** A move of the selected block keeps the layout invariant, whether it is
      accepted or rejected. */
  lemma MovePreservesLayout(blocks: seq<Block>, i: int, dx: int, dy: int)
    requires LayoutOk(blocks) && 0 <= i < |blocks|
    requires dx % D == 0 && dy % D == 0
    ensures LayoutOk(MoveResult(blocks, i, i, dx, dy))
  {
    MovedKeepsAlignment(blocks[i], dx, dy);
  }

  // ---------------------------------------------------------------------
  // The initial layout

  /** The initial layout satisfies the layout invariant: all eight blocks are
      on the grid, aligned, and pairwise disjoint. */
  lemma InitialLayoutOk()
    ensures |InitialLayout()| == B_QUANT
    ensures LayoutOk(InitialLayout())
  {
    var l := InitialLayout();
    forall j, k | 0 <= j < |l| && 0 <= k < |l| && j != k
      ensures !Collide(l[j], l[k])
    {
      CollisionIsStrictIntersection(l[j].x, l[j].y, l[j].width, l[j].height,
                                    l[k].x, l[k].y, l[k].width, l[k].height);
    }
  }

  /** Exactly blocks 5, 6 and 7 start horizontal; block 7 starts at
      (100, 400) with size 200 x 100, so the game is not won at the start. */
  lemma InitialLayoutShape()
    ensures forall k :: 0 <= k < |InitialLayout()| ==> (InitialLayout()[k].horizontal <==> 5 <= k)
    ensures InitialLayout()[7] == Block(100, 400, 200, 100, true)
    ensures !IsWon(InitialLayout())
  {
  }

  // ---------------------------------------------------------------------
  // Keyboard commands

  /** Every key press keeps the invariant of the game. */
  lemma KeyStepPreservesInv(s: State, key: char)
    requires Inv(s)
    ensures Inv(KeyStep(s, key))
  {
    match key
    case 'w' => MovePreservesLayout(s.blocks, s.selected, 0, D);
    case 's' => MovePreservesLayout(s.blocks, s.selected, 0, -D);
    case 'a' => MovePreservesLayout(s.blocks, s.selected, -D, 0);
    case 'd' => MovePreservesLayout(s.blocks, s.selected, D, 0);
    case 'r' => InitialLayoutOk();
    case _ =>
  }

  /** Apart from a reset, a key press leaves every block's size and
      orientation alone, never changes a horizontal block's y or a vertical
      block's x, and moves a block by at most one cell. */
  lemma KeyStepAxis(s: State, key: char)
    requires WellFormed(s) && key != 'r'
    ensures var t := KeyStep(s, key);
      |t.blocks| == |s.blocks| &&
      forall k :: 0 <= k < |t.blocks| ==>
        t.blocks[k].width == s.blocks[k].width && t.blocks[k].height == s.blocks[k].height &&
        t.blocks[k].horizontal == s.blocks[k].horizontal &&
        (s.blocks[k].horizontal ==> t.blocks[k].y == s.blocks[k].y &&
                                    (t.blocks[k].x == s.blocks[k].x || t.blocks[k].x - s.blocks[k].x == D || s.blocks[k].x - t.blocks[k].x == D)) &&
        (!s.blocks[k].horizontal ==> t.blocks[k].x == s.blocks[k].x &&
                                     (t.blocks[k].y == s.blocks[k].y || t.blocks[k].y - s.blocks[k].y == D || s.blocks[k].y - t.blocks[k].y == D))
  {
  }

  /** Along any run of key presses without a reset, horizontal blocks keep
      their y, vertical blocks keep their x, and nobody changes size or
      orientation. */
  lemma {:induction false} KeyPressesAxis(s: State, keys: seq<char>)
    requires WellFormed(s) && 'r' !in keys
    ensures var t := KeyPresses(s, keys);
      forall k :: 0 <= k < B_QUANT ==>
        t.blocks[k].width == s.blocks[k].width && t.blocks[k].height == s.blocks[k].height &&
        t.blocks[k].horizontal == s.blocks[k].horizontal &&
        (s.blocks[k].horizontal ==> t.blocks[k].y == s.blocks[k].y) &&
        (!s.blocks[k].horizontal ==> t.blocks[k].x == s.blocks[k].x)
    decreases |keys|
  {
    if keys != [] {
      KeyStepAxis(s, keys[0]);
      assert 'r' !in keys[1..] by {
        forall c | c in keys[1..] ensures c != 'r' { assert c in keys; }
      }
      KeyPressesAxis(KeyStep(s, keys[0]), keys[1..]);
    }
  }

  /** Block k keeps the size and orientation it has in the starting layout,
      and the coordinate across its axis of movement. */
  predicate OnTrack(blocks: seq<Block>, k: int)
    requires 0 <= k < |blocks| && k < B_QUANT
  {
    var start := InitialLayout()[k];
    blocks[k].width == start.width && blocks[k].height == start.height &&
    blocks[k].horizontal == start.horizontal &&
    (start.horizontal ==> blocks[k].y == start.y) &&
    (!start.horizontal ==> blocks[k].x == start.x)
  }

  /** Every key press, including a reset, keeps every block on its track. */
  lemma {:induction false} KeyPressesStayOnTrack(s: State, keys: seq<char>)
    requires WellFormed(s) && forall k :: 0 <= k < B_QUANT ==> OnTrack(s.blocks, k)
    ensures forall k :: 0 <= k < B_QUANT ==> OnTrack(KeyPresses(s, keys).blocks, k)
    decreases |keys|
  {
    if keys != [] {
      var t := KeyStep(s, keys[0]);
      if keys[0] != 'r' {
        KeyStepAxis(s, keys[0]);
        forall k | 0 <= k < B_QUANT ensures OnTrack(t.blocks, k) {
          assert OnTrack(s.blocks, k);
        }
      }
      KeyPressesStayOnTrack(KeyStep(s, keys[0]), keys[1..]);
    }
  }

  /** Over any run of key presses from the start of the game, resets
      included, every block keeps its starting size and orientation, a
      horizontal block keeps its starting y and a vertical block its
      starting x. */
  lemma WholeGameAxis(keys: seq<char>)
    ensures var t := KeyPresses(InitialState(), keys);
      forall k :: 0 <= k < B_QUANT ==>
        t.blocks[k].width == InitialLayout()[k].width && t.blocks[k].height == InitialLayout()[k].height &&
        t.blocks[k].horizontal == InitialLayout()[k].horizontal &&
        (InitialLayout()[k].horizontal ==> t.blocks[k].y == InitialLayout()[k].y) &&
        (!InitialLayout()[k].horizontal ==> t.blocks[k].x == InitialLayout()[k].x)
  {
    KeyPressesStayOnTrack(InitialState(), keys);
    var t := KeyPresses(InitialState(), keys);
    forall k | 0 <= k < B_QUANT
      ensures t.blocks[k].width == InitialLayout()[k].width && t.blocks[k].height == InitialLayout()[k].height &&
        t.blocks[k].horizontal == InitialLayout()[k].horizontal &&
        (InitialLayout()[k].horizontal ==> t.blocks[k].y == InitialLayout()[k].y) &&
        (!InitialLayout()[k].horizontal ==> t.blocks[k].x == InitialLayout()[k].x)
    {
      assert OnTrack(t.blocks, k);
    }
  }

  /** Every state reachable by key presses from a state satisfying the
      invariant satisfies it too: blocks on the grid and on its lines,
      pairwise disjoint, selection in range. */
  lemma {:induction false} KeyPressesPreserveInv(s: State, keys: seq<char>)
    requires Inv(s)
    ensures Inv(KeyPresses(s, keys))
    decreases |keys|
  {
    if keys != [] {
      KeyStepPreservesInv(s, keys[0]);
      KeyPressesPreserveInv(KeyStep(s, keys[0]), keys[1..]);
    }
  }

  /** States reached from the start of the game by any key presses satisfy the invariant. */
  lemma ReachableStatesOk(keys: seq<char>)
    ensures Inv(KeyPresses(InitialState(), keys))
  {
    InitialLayoutOk();
    KeyPressesPreserveInv(InitialState(), keys);
  }

  /** A run of `n` presses of the same key. */
  function Repeat(key: char, n: nat): (r: seq<char>)
    ensures |r| == n && forall c :: c in r ==> c == key
  {
    if n == 0 then [] else [key] + Repeat(key, n - 1)
  }

  /** After k presses of n the selection has advanced by k, cyclically, and no block moved. */
  lemma {:induction false} SelectNextAdvances(s: State, k: nat)
    requires WellFormed(s)
    ensures KeyPresses(s, Repeat('n', k)) == s.(selected := (s.selected + k) % B_QUANT)
    decreases k
  {
    if k > 0 {
      var keys := Repeat('n', k);
      assert keys[0] == 'n' && keys[1..] == Repeat('n', k - 1);
      var t := KeyStep(s, 'n');
      SelectNextAdvances(t, k - 1);
      assert (t.selected + (k - 1)) % B_QUANT == (s.selected + k) % B_QUANT;
    }
  }

  /** Advancing a selection in [0, 8) by j or by k, cyclically, lands on
      different indices when 0 <= j < k < 8. */
  lemma AdvanceDistinct(a: int, j: int, k: int)
    requires 0 <= a < B_QUANT && 0 <= j < k < B_QUANT
    ensures (a + j) % B_QUANT != (a + k) % B_QUANT
  {
    assert (a + j) % B_QUANT == if a + j < B_QUANT then a + j else a + j - B_QUANT;
    assert (a + k) % B_QUANT == if a + k < B_QUANT then a + k else a + k - B_QUANT;
  }

  /** Eight presses of n return the selection to where it started, and the
      first eight presses visit eight distinct indices. */
  lemma SelectNextCycles(s: State)
    requires WellFormed(s)
    ensures KeyPresses(s, Repeat('n', B_QUANT as nat)) == s
    ensures forall j, k :: 0 <= j < k < B_QUANT ==>
      KeyPresses(s, Repeat('n', j)).selected != KeyPresses(s, Repeat('n', k)).selected
  {
    SelectNextAdvances(s, B_QUANT as nat);
    assert (s.selected + B_QUANT) % B_QUANT == s.selected;
    forall j, k | 0 <= j < k < B_QUANT
      ensures KeyPresses(s, Repeat('n', j)).selected != KeyPresses(s, Repeat('n', k)).selected
    {
      SelectNextAdvances(s, j);
      SelectNextAdvances(s, k);
      AdvanceDistinct(s.selected, j, k);
    }
  }

  /** A reset gives the initial layout with block 0 selected, whatever the
      state, so two resets give the same as one. */
  lemma ResetIdempotent(s: State)
    requires WellFormed(s)
    ensures KeyStep(s, 'r') == State(InitialLayout(), 0)
    ensures KeyStep(KeyStep(s, 'r'), 'r') == KeyStep(s, 'r')
  {
  }

  // ---------------------------------------------------------------------
  // Winning

  /** From the start, seven presses of n select block 7 and move nothing. */
  lemma SelectSeventh()
    ensures KeyPresses(InitialState(), Repeat('n', 7)) == State(InitialLayout(), 7)
  {
    var s0 := InitialState();
    SelectNextAdvances(s0, 7);
    assert (s0.selected + 7) % B_QUANT == 7;
  }

  /** With block 7 selected in the initial layout, the first d moves it to
      (200, 400); the second d is rejected because the moved rectangle would
      overlap block 2, and the game is not won. */
  lemma FirstRightMoveThenBlocked()
    ensures var s1 := KeyStep(State(InitialLayout(), 7), 'd');
      var s2 := KeyStep(s1, 'd');
      s1.blocks == InitialLayout()[7 := Block(200, 400, 200, 100, true)] &&
      Collide(Moved(s1.blocks[7], D, 0), s1.blocks[2]) &&
      s2 == s1 && !IsWon(s2.blocks)
  {
    var l := InitialLayout();
    var cand := Moved(l[7], D, 0);
    assert FreeOf(l, 7, cand) by {
      forall j | 0 <= j < |l| && j != 7 ensures !Collide(cand, l[j]) {
        CollisionIsStrictIntersection(cand.x, cand.y, cand.width, cand.height,
                                      l[j].x, l[j].y, l[j].width, l[j].height);
      }
    }
    var l1 := l[7 := cand];
    assert KeyStep(State(l, 7), 'd') == State(l1, 7);
    assert Collide(Moved(l1[7], D, 0), l1[2]);
  }
}
