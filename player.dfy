/**
 * The machine player: its own board (an 8x8 array indexed `board[x, y]`),
 * the chip counters of both sides, the legality check that commits a legal
 * placement, and the recording of the opponent's moves.
 */
module Player {
  import opened Wrappers
  import opened Board

  /** Kinds of move a referee can report. `Other` stands for any unrecognised kind. */
  datatype MoveKind = Quit | Add | Step | Other(code: int)

  /**
   * A move: ADD places a chip at (x1, y1); STEP moves the chip at (x2, y2)
   * to (x1, y1).
   */
  datatype Move = Move(kind: MoveKind, x1: int, y1: int, x2: int, y2: int)

  class MachinePlayer {
    const color: int
    var myCount: int
    var opponentCount: int
    const board: array2<int>
    /** The contents of `board` as a grid value. */
    ghost var cells: Grid

    /** `cells` is an exact copy of the 8x8 `board`. */
    ghost predicate Mirrors()
      reads this, board
    {
      && board.Length0 == SIDE && board.Length1 == SIDE && IsGrid(cells)
      && forall x, y :: OnBoard(x, y) ==> board[x, y] == cells[x][y]
    }

    /**
     * The player's invariant: the board keeps the goal-line and cluster rules,
     * and the counters equal the chips of each colour on it, at most 10 each.
     */
    ghost predicate Valid()
      reads this, board
    {
      Mirrors() && Consistent(cells, color, myCount, opponentCount)
    }

    /** The counter of the side that plays `moveColor`. */
    function MoverCount(moveColor: int): int
      reads this
    {
      if moveColor == color then myCount else opponentCount
    }

    /**
     * Recording `m` never indexes the board out of range. ADD reads its
     * target only once the early checks have passed. STEP always reads its
     * source, and reads its target only when the source holds an opponent chip
     * and the early checks pass with that chip lifted.
     */
    ghost predicate InRange(m: Move)
      requires Mirrors()
      reads this, board
    {
      match m.kind
      case Add =>
        OnBoard(m.x1, m.y1) || EarlyRefusal(opponentCount, m.x1, m.y1, OtherColour(color))
      case Step =>
        && OnBoard(m.x2, m.y2)
        && (|| cells[m.x2][m.y2] != OtherColour(color)
            || OnBoard(m.x1, m.y1)
            || EarlyRefusal(opponentCount - 1, m.x1, m.y1, OtherColour(color)))
      case _ => true
    }

    /** A player of the given colour, with an empty board and no chips counted. */
    constructor (color: int)
      requires IsColour(color)
      ensures Valid() && fresh(board)
      ensures this.color == color && myCount == 0 && opponentCount == 0
      ensures cells == EmptyGrid()
    {
      var b := new int[SIDE, SIDE];
      for i := 0 to SIDE
        invariant forall p, q :: 0 <= p < i && 0 <= q < SIDE ==> b[p, q] == EMPTY
      {
        for j := 0 to SIDE
          invariant forall p, q :: 0 <= p < i && 0 <= q < SIDE ==> b[p, q] == EMPTY
          invariant forall q :: 0 <= q < j ==> b[i, q] == EMPTY
        {
          b[i, j] := EMPTY;
        }
      }
      board := b;
      myCount := 0;
      opponentCount := 0;
      this.color := color;
      cells := EmptyGrid();
      new;
      EmptyConsistent(color);
    }

    /**
     * Counts `moveColor` chips in the window around (x, y). In the outer call
     * (`initial`), a neighbour whose own window holds more than one such chip
     * makes the answer 2 at once.
     */
    method CountNeighbours(x: int, y: int, moveColor: int, initial: bool) returns (r: int)
      requires Mirrors() && OnBoard(x, y)
      ensures r == NeighbourCount(cells, x, y, moveColor, initial)
      decreases initial
    {
      ghost var g := cells;
      var c := 0;
      var xLo, xHi := Max(0, x - 1), Min(SIDE - 1, x + 1);
      var yLo, yHi := Max(0, y - 1), Min(SIDE - 1, y + 1);
      var i := xLo;
      while i <= xHi
        invariant xLo <= i <= xHi + 1
        invariant c == CountRect(g, xLo, i, yLo, yHi + 1, moveColor)
        invariant initial ==> CalmRect(g, xLo, i, yLo, yHi + 1, moveColor)
      {
        var j := yLo;
        while j <= yHi
          invariant yLo <= j <= yHi + 1
          invariant c == CountRect(g, xLo, i, yLo, yHi + 1, moveColor) + CountRow(g, i, yLo, j, moveColor)
          invariant initial ==> CalmRect(g, xLo, i, yLo, yHi + 1, moveColor)
          invariant initial ==> CalmRow(g, i, yLo, j, moveColor)
        {
          if board[i, j] == moveColor {
            if initial {
              var c1 := CountNeighbours(i, j, moveColor, false);
              if c1 > 1 {
                assert InWindow(x, y, i, j);
                return 2;
              }
            }
            c := c + 1;
          }
          j := j + 1;
        }
        i := i + 1;
      }
      CalmWindow(g, x, y, moveColor);
      r := c;
    }

    /**
     * Tries to place a `moveColor` chip at (x, y): returns the first check that
     * fails and leaves the board alone, or commits the chip and returns None.
     * The counters are not touched.
     */
    method MakeMove(x: int, y: int, moveColor: int) returns (err: Option<MoveError>)
      requires Mirrors() && (OnBoard(x, y) || EarlyRefusal(MoverCount(moveColor), x, y, moveColor))
      modifies board, this`cells
      ensures Mirrors()
      ensures err == Check(old(cells), MoverCount(moveColor), x, y, moveColor)
      ensures err.Some? ==> cells == old(cells)
      ensures err.None? ==> OnBoard(x, y)
      ensures err.None? ==> cells == Set(old(cells), x, y, moveColor)
    {
      if moveColor == color && myCount >= CHIP_LIMIT {
        return Some(TooManyChips);
      }
      if moveColor != color && opponentCount >= CHIP_LIMIT {
        return Some(TooManyChips);
      }
      if (x == 0 && y == 0) || (x == SIDE - 1 && y == SIDE - 1) ||
         (x == 0 && y == SIDE - 1) || (x == SIDE - 1 && y == 0) {
        return Some(Corner);
      }
      if moveColor == BLACK {
        if x == 0 || x == SIDE - 1 {
          return Some(BlackEdge);
        }
      }
      if moveColor == WHITE {
        if y == 0 || y == SIDE - 1 {
          return Some(WhiteEdge);
        }
      }
      if board[x, y] != EMPTY {
        return Some(Occupied);
      }
      var n := CountNeighbours(x, y, moveColor, true);
      NeighbourCountVerdict(cells, x, y, moveColor);
      if n > 1 {
        return Some(ClusterTooBig);
      }
      Write(x, y, moveColor);
      err := None;
    }

    /** Writes one cell of the board and keeps `cells` in step. */
    method Write(x: int, y: int, v: int)
      requires Mirrors() && OnBoard(x, y)
      modifies board, this`cells
      ensures Mirrors() && cells == Set(old(cells), x, y, v)
    {
      board[x, y] := v;
      cells := Set(cells, x, y, v);
    }

    /**
     * Records a move of the opponent. A legal ADD or STEP is applied and answers
     * true; anything else answers false and changes nothing.
     */
    method OpponentMove(m: Move) returns (ok: bool)
      requires Valid() && InRange(m)
      modifies this`opponentCount, this`cells, board
      ensures Valid()
      ensures !ok ==> cells == old(cells) && opponentCount == old(opponentCount)
      ensures m.kind.Quit? || m.kind.Other? ==> !ok
      ensures ok ==> OnBoard(m.x1, m.y1)
      ensures m.kind.Add? ==>
        (ok <==> Check(old(cells), old(opponentCount), m.x1, m.y1, OtherColour(color)).None?)
      ensures m.kind.Add? && ok ==>
        cells == Set(old(cells), m.x1, m.y1, OtherColour(color)) && opponentCount == old(opponentCount) + 1
      ensures m.kind.Step? ==>
        (ok <==> old(cells)[m.x2][m.y2] == OtherColour(color) &&
                 Check(Set(old(cells), m.x2, m.y2, EMPTY), old(opponentCount) - 1, m.x1, m.y1, OtherColour(color)).None?)
      ensures m.kind.Step? && ok ==>
        cells == Set(Set(old(cells), m.x2, m.y2, EMPTY), m.x1, m.y1, OtherColour(color)) &&
        opponentCount == old(opponentCount)
      ensures m.kind.Step? && ok ==>
        cells[m.x1][m.y1] == OtherColour(color) &&
        ((m.x1 != m.x2 || m.y1 != m.y2) ==> cells[m.x2][m.y2] == EMPTY)
    {
      var moveColor := BLACK;
      if color == BLACK {
        moveColor := WHITE;
      }
      match m.kind {
        case Quit =>
          return false;
        case Add =>
          var err := MakeMove(m.x1, m.y1, moveColor);
          if err.Some? {
            return false;
          }
          PlaceKeepsConsistent(old(cells), color, myCount, opponentCount, m.x1, m.y1);
          opponentCount := opponentCount + 1;
          return true;
        case Step =>
          if board[m.x2, m.y2] != moveColor {
            return false;
          }
          var saveChip := board[m.x2, m.y2];
          VacateKeepsConsistent(cells, color, myCount, opponentCount, m.x2, m.y2);
          Write(m.x2, m.y2, EMPTY);
          opponentCount := opponentCount - 1;
          ghost var vacated := cells;
          var err := MakeMove(m.x1, m.y1, moveColor);
          if err.Some? {
            Write(m.x2, m.y2, saveChip);
            SetRestores(old(cells), m.x2, m.y2, EMPTY);
            opponentCount := opponentCount + 1;
            return false;
          }
          PlaceKeepsConsistent(vacated, color, myCount, opponentCount, m.x1, m.y1);
          opponentCount := opponentCount + 1;
          return true;
        case Other(_) =>
          return false;
      }
    }

    /** The hook for setting up positions by hand: it refuses every move and changes nothing. */
    method ForceMove(m: Move) returns (ok: bool)
      ensures !ok
    {
      return false;
    }
  }
}
