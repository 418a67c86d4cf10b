/**
 * The 8x8 Network board as a value: a grid of cell contents indexed `g[x][y]`,
 * the neighbour counts of the cluster rule, the legality verdict of a single
 * placement, and the board invariants that legal placements preserve.
 */
module Board {
  import opened Wrappers

  const BLACK: int := 0
  const WHITE: int := 1
  const EMPTY: int := -1
  const SIDE: int := 8
  /** Each colour may have at most this many chips on the board. */
  const CHIP_LIMIT: int := 10

  type Grid = seq<seq<int>>

  /** Why a placement is refused, one value per check, in the order they are made. */
  datatype MoveError = TooManyChips | Corner | BlackEdge | WhiteEdge | Occupied | ClusterTooBig

  predicate OnBoard(x: int, y: int) {
    0 <= x < SIDE && 0 <= y < SIDE
  }

  predicate IsColour(c: int) {
    c == BLACK || c == WHITE
  }

  predicate IsGrid(g: Grid) {
    |g| == SIDE && forall i :: 0 <= i < SIDE ==> |g[i]| == SIDE
  }

  predicate IsCorner(x: int, y: int) {
    (x == 0 && y == 0) || (x == SIDE - 1 && y == SIDE - 1) ||
    (x == 0 && y == SIDE - 1) || (x == SIDE - 1 && y == 0)
  }

  /** The board every player starts from. */
  function EmptyGrid(): (g: Grid)
    ensures IsGrid(g)
    ensures forall x, y :: OnBoard(x, y) ==> g[x][y] == EMPTY
  {
    seq(SIDE, _ => seq(SIDE, _ => EMPTY))
  }

  /** The grid with cell (x, y) set to `v` and every other cell as before. */
  function Set(g: Grid, x: int, y: int, v: int): (r: Grid)
    requires IsGrid(g) && OnBoard(x, y)
    ensures IsGrid(r) && r[x][y] == v
    ensures forall i, j :: OnBoard(i, j) && (i != x || j != y) ==> r[i][j] == g[i][j]
  {
    g[x := g[x][y := v]]
  }

  function Max(a: int, b: int): int {
    if a < b then b else a
  }

  function Min(a: int, b: int): int {
    if a < b then a else b
  }

  /** First row (or column) of the 3x3 window around x, clamped to the board. */
  function Lo(x: int): int {
    Max(0, x - 1)
  }

  /** Last row (or column) of the 3x3 window around x, clamped to the board. */
  function Hi(x: int): int {
    Min(SIDE - 1, x + 1)
  }

  /** (i, j) lies in the clamped 3x3 window centred on (x, y), centre included. */
  predicate InWindow(x: int, y: int, i: int, j: int) {
    Lo(x) <= i <= Hi(x) && Lo(y) <= j <= Hi(y)
  }

  /** Number of columns j0 <= j < j1 of row i holding `c`. */
  function CountRow(g: Grid, i: int, j0: int, j1: int, c: int): nat
    requires IsGrid(g) && 0 <= i < SIDE && 0 <= j0 && j1 <= SIDE
    decreases j1 - j0
  {
    if j1 <= j0 then 0
    else CountRow(g, i, j0, j1 - 1, c) + (if g[i][j1 - 1] == c then 1 else 0)
  }

  /** Number of cells in rows i0 <= i < i1 and columns j0 <= j < j1 holding `c`. */
  function CountRect(g: Grid, i0: int, i1: int, j0: int, j1: int, c: int): nat
    requires IsGrid(g) && 0 <= i0 && i1 <= SIDE && 0 <= j0 && j1 <= SIDE
    decreases i1 - i0
  {
    if i1 <= i0 then 0
    else CountRect(g, i0, i1 - 1, j0, j1, c) + CountRow(g, i1 - 1, j0, j1, c)
  }

  /** Cells holding `c` in the window around (x, y), the centre included. */
  function WindowCount(g: Grid, x: int, y: int, c: int): nat
    requires IsGrid(g) && OnBoard(x, y)
  {
    CountRect(g, Lo(x), Hi(x) + 1, Lo(y), Hi(y) + 1, c)
  }

  /** The cells of the board holding colour `c`. */
  ghost function Chips(g: Grid, c: int): set<(int, int)>
    requires IsGrid(g)
  {
    set x, y | 0 <= x < SIDE && 0 <= y < SIDE && g[x][y] == c :: (x, y)
  }

  /** Chips of colour `c` on the whole board. */
  ghost function PieceCount(g: Grid, c: int): nat
    requires IsGrid(g)
  {
    |Chips(g, c)|
  }

  /** Some `c` chip in the window around (x, y) already has another `c` chip in its own window. */
  ghost predicate Crowded(g: Grid, x: int, y: int, c: int)
    requires IsGrid(g) && OnBoard(x, y)
  {
    exists i, j {:trigger WindowCount(g, i, j, c)} :: OnBoard(i, j) && InWindow(x, y, i, j) && g[i][j] == c && WindowCount(g, i, j, c) > 1
  }

  /** No `c` chip in columns j0 <= j < j1 of row i has a second `c` chip in its window. */
  ghost predicate CalmRow(g: Grid, i: int, j0: int, j1: int, c: int)
    requires IsGrid(g) && 0 <= i < SIDE && 0 <= j0 && j1 <= SIDE
    decreases j1 - j0
  {
    j1 <= j0 ||
    (CalmRow(g, i, j0, j1 - 1, c) && (g[i][j1 - 1] == c ==> WindowCount(g, i, j1 - 1, c) <= 1))
  }

  /** No `c` chip in the rectangle has a second `c` chip in its window. */
  ghost predicate CalmRect(g: Grid, i0: int, i1: int, j0: int, j1: int, c: int)
    requires IsGrid(g) && 0 <= i0 && i1 <= SIDE && 0 <= j0 && j1 <= SIDE
    decreases i1 - i0
  {
    i1 <= i0 || (CalmRect(g, i0, i1 - 1, j0, j1, c) && CalmRow(g, i1 - 1, j0, j1, c))
  }

  /**
   * What the neighbour count of the source reports: in the outer call (`initial`)
   * any crowded neighbour answers 2 at once; otherwise the window count.
   */
  ghost function NeighbourCount(g: Grid, x: int, y: int, c: int, initial: bool): nat
    requires IsGrid(g) && OnBoard(x, y)
  {
    if initial && Crowded(g, x, y, c) then 2 else WindowCount(g, x, y, c)
  }

  /**
   * The cluster rule for placing `c` at an empty (x, y): at most one `c` chip
   * around it, and no `c` chip around it has a second `c` chip in its window.
   */
  ghost predicate ClusterOk(g: Grid, x: int, y: int, c: int)
    requires IsGrid(g) && OnBoard(x, y)
  {
    && WindowCount(g, x, y, c) <= 1
    && forall i, j {:trigger WindowCount(g, i, j, c)} :: OnBoard(i, j) && InWindow(x, y, i, j) && g[i][j] == c ==> WindowCount(g, i, j, c) <= 1
  }

  /**
   * One of the checks made before the board is read refuses the placement:
   * the chip budget, the corners, or the goal lines closed to `c`. These
   * need no cell of the board, so they refuse off-board coordinates as well.
   */
  predicate EarlyRefusal(count: int, x: int, y: int, c: int) {
    || count >= CHIP_LIMIT
    || IsCorner(x, y)
    || (c == BLACK && (x == 0 || x == SIDE - 1))
    || (c == WHITE && (y == 0 || y == SIDE - 1))
  }

  /**
   * The verdict on placing `c` at (x, y) when its mover already has `count`
   * chips: the first failing check, or None when the placement is legal.
   */
  ghost function Check(g: Grid, count: int, x: int, y: int, c: int): Option<MoveError>
    requires IsGrid(g) && (OnBoard(x, y) || EarlyRefusal(count, x, y, c))
  {
    if count >= CHIP_LIMIT then Some(TooManyChips)
    else if IsCorner(x, y) then Some(Corner)
    else if c == BLACK && (x == 0 || x == SIDE - 1) then Some(BlackEdge)
    else if c == WHITE && (y == 0 || y == SIDE - 1) then Some(WhiteEdge)
    else if g[x][y] != EMPTY then Some(Occupied)
    else if !ClusterOk(g, x, y, c) then Some(ClusterTooBig)
    else None
  }

  /** Every cell is empty or holds a colour, and no chip sits on a goal line closed to its colour. */
  ghost predicate Rules(g: Grid)
    requires IsGrid(g)
  {
    forall x, y :: OnBoard(x, y) ==>
      && (g[x][y] == EMPTY || IsColour(g[x][y]))
      && (g[x][y] == BLACK ==> x != 0 && x != SIDE - 1)
      && (g[x][y] == WHITE ==> y != 0 && y != SIDE - 1)
  }

  /** Every chip has at most one chip of its own colour among its eight neighbours. */
  ghost predicate ClusterFree(g: Grid)
    requires IsGrid(g)
  {
    forall x, y {:trigger WindowCount(g, x, y, g[x][y])} :: OnBoard(x, y) && g[x][y] != EMPTY ==> WindowCount(g, x, y, g[x][y]) <= 2
  }

  // ---------------------------------------------------------------------------
  // The legality verdict

  /** Each check of the source refuses the placement on its own, and nothing off the board is accepted. */
  lemma CheckRejects(g: Grid, count: int, x: int, y: int, c: int)
    requires IsGrid(g) && (OnBoard(x, y) || EarlyRefusal(count, x, y, c))
    ensures count >= CHIP_LIMIT ==> Check(g, count, x, y, c) == Some(TooManyChips)
    ensures IsCorner(x, y) ==> Check(g, count, x, y, c).Some?
    ensures c == BLACK && (x == 0 || x == SIDE - 1) ==> Check(g, count, x, y, c).Some?
    ensures c == WHITE && (y == 0 || y == SIDE - 1) ==> Check(g, count, x, y, c).Some?
    ensures OnBoard(x, y) && g[x][y] != EMPTY ==> Check(g, count, x, y, c).Some?
    ensures !OnBoard(x, y) ==> Check(g, count, x, y, c).Some?
  {
  }

  /**
   * A placement is accepted exactly when every check passes; in particular the
   * cell then has at most one same-colour neighbour, and that neighbour has no
   * other same-colour neighbour.
   */
  lemma CheckAccepts(g: Grid, count: int, x: int, y: int, c: int)
    requires IsGrid(g) && OnBoard(x, y)
    ensures Check(g, count, x, y, c).None? <==>
      && count < CHIP_LIMIT && !IsCorner(x, y)
      && !(c == BLACK && (x == 0 || x == SIDE - 1))
      && !(c == WHITE && (y == 0 || y == SIDE - 1))
      && g[x][y] == EMPTY
      && WindowCount(g, x, y, c) <= 1
      && forall i, j {:trigger WindowCount(g, i, j, c)} :: OnBoard(i, j) && InWindow(x, y, i, j) && g[i][j] == c ==> WindowCount(g, i, j, c) <= 1
  {
  }

  /** The outer neighbour count exceeds 1 exactly when the cluster rule fails. */
  lemma NeighbourCountVerdict(g: Grid, x: int, y: int, c: int)
    requires IsGrid(g) && OnBoard(x, y)
    ensures NeighbourCount(g, x, y, c, true) > 1 <==> !ClusterOk(g, x, y, c)
  {
  }

  /** The recursive `CalmRow` says exactly that no chip in the row segment is crowded. */
  lemma {:induction false} CalmRowMeaning(g: Grid, i: int, j0: int, j1: int, c: int)
    requires IsGrid(g) && 0 <= i < SIDE && 0 <= j0 && j1 <= SIDE
    ensures CalmRow(g, i, j0, j1, c) <==>
      forall q :: j0 <= q < j1 && g[i][q] == c ==> WindowCount(g, i, q, c) <= 1
    decreases j1 - j0
  {
    if j1 > j0 {
      CalmRowMeaning(g, i, j0, j1 - 1, c);
    }
  }

  /** The recursive `CalmRect` says exactly that no chip in the rectangle is crowded. */
  lemma {:induction false} CalmRectMeaning(g: Grid, i0: int, i1: int, j0: int, j1: int, c: int)
    requires IsGrid(g) && 0 <= i0 && i1 <= SIDE && 0 <= j0 && j1 <= SIDE
    ensures CalmRect(g, i0, i1, j0, j1, c) <==>
      forall p, q :: i0 <= p < i1 && j0 <= q < j1 && g[p][q] == c ==> WindowCount(g, p, q, c) <= 1
    decreases i1 - i0
  {
    if i1 > i0 {
      CalmRectMeaning(g, i0, i1 - 1, j0, j1, c);
      CalmRowMeaning(g, i1 - 1, j0, j1, c);
    }
  }

  /** The window around (x, y) is calm exactly when (x, y) is not crowded. */
  lemma CalmWindow(g: Grid, x: int, y: int, c: int)
    requires IsGrid(g) && OnBoard(x, y)
    ensures CalmRect(g, Lo(x), Hi(x) + 1, Lo(y), Hi(y) + 1, c) <==> !Crowded(g, x, y, c)
  {
    CalmRectMeaning(g, Lo(x), Hi(x) + 1, Lo(y), Hi(y) + 1, c);
  }

  /** The window relation is symmetric on the board. */
  lemma WindowSymmetric(x: int, y: int, i: int, j: int)
    requires OnBoard(x, y) && OnBoard(i, j)
    ensures InWindow(x, y, i, j) <==> InWindow(i, j, x, y)
  {
  }

  // ---------------------------------------------------------------------------
  // Counting under a single-cell update

  /** The effect on a count for `c` of setting (x, y) to `v`, when (x, y) is counted. */
  function Delta(g: Grid, x: int, y: int, v: int, c: int, inside: bool): int
    requires IsGrid(g) && OnBoard(x, y)
  {
    if !inside then 0
    else (if v == c then 1 else 0) - (if g[x][y] == c then 1 else 0)
  }

  /** Setting one cell changes a row segment's count only if the cell is in it. */
  lemma {:induction false} CountRowSet(g: Grid, x: int, y: int, v: int, i: int, j0: int, j1: int, c: int)
    requires IsGrid(g) && OnBoard(x, y) && 0 <= i < SIDE && 0 <= j0 && j1 <= SIDE
    ensures CountRow(Set(g, x, y, v), i, j0, j1, c)
         == CountRow(g, i, j0, j1, c) + Delta(g, x, y, v, c, i == x && j0 <= y < j1)
    decreases j1 - j0
  {
    if j1 > j0 {
      CountRowSet(g, x, y, v, i, j0, j1 - 1, c);
    }
  }

  /** Setting one cell changes a rectangle's count only if the cell is in it, and then by one step. */
  lemma {:induction false} CountRectSet(g: Grid, x: int, y: int, v: int, i0: int, i1: int, j0: int, j1: int, c: int)
    requires IsGrid(g) && OnBoard(x, y) && 0 <= i0 && i1 <= SIDE && 0 <= j0 && j1 <= SIDE
    ensures CountRect(Set(g, x, y, v), i0, i1, j0, j1, c)
         == CountRect(g, i0, i1, j0, j1, c) + Delta(g, x, y, v, c, i0 <= x < i1 && j0 <= y < j1)
    decreases i1 - i0
  {
    if i1 > i0 {
      CountRectSet(g, x, y, v, i0, i1 - 1, j0, j1, c);
      CountRowSet(g, x, y, v, i1 - 1, j0, j1, c);
    }
  }

  // ---------------------------------------------------------------------------
  // Invariants

  /** The empty board satisfies every board invariant and holds no chip of either colour. */
  lemma EmptyGridInvariants()
    ensures Rules(EmptyGrid()) && ClusterFree(EmptyGrid())
    ensures PieceCount(EmptyGrid(), BLACK) == 0 && PieceCount(EmptyGrid(), WHITE) == 0
  {
    assert Chips(EmptyGrid(), BLACK) == {};
    assert Chips(EmptyGrid(), WHITE) == {};
  }

  /** Corners are never occupied on a board that keeps the goal-line rules. */
  lemma CornersEmpty(g: Grid, x: int, y: int)
    requires IsGrid(g) && Rules(g) && OnBoard(x, y) && IsCorner(x, y)
    ensures g[x][y] == EMPTY
  {
  }

  /** A legal placement keeps every chip with at most one same-colour neighbour. */
  lemma PlaceKeepsClusterFree(g: Grid, x0: int, y0: int, c: int)
    requires IsGrid(g) && OnBoard(x0, y0) && ClusterFree(g)
    requires IsColour(c) && g[x0][y0] == EMPTY && ClusterOk(g, x0, y0, c)
    ensures ClusterFree(Set(g, x0, y0, c))
  {
    var g' := Set(g, x0, y0, c);
    forall x, y | OnBoard(x, y) && g'[x][y] != EMPTY
      ensures WindowCount(g', x, y, g'[x][y]) <= 2
    {
      CountRectSet(g, x0, y0, c, Lo(x), Hi(x) + 1, Lo(y), Hi(y) + 1, g'[x][y]);
      // Names the old window count, so that ClusterFree(g) is instantiated at (x, y).
      var before := WindowCount(g, x, y, g'[x][y]);
      if (x != x0 || y != y0) && InWindow(x, y, x0, y0) && g[x][y] == c {
        WindowSymmetric(x, y, x0, y0);
      }
    }
  }

  /** Emptying a cell never gives any chip a new same-colour neighbour. */
  lemma VacateKeepsClusterFree(g: Grid, x0: int, y0: int)
    requires IsGrid(g) && OnBoard(x0, y0) && ClusterFree(g)
    ensures ClusterFree(Set(g, x0, y0, EMPTY))
  {
    var g' := Set(g, x0, y0, EMPTY);
    forall x, y | OnBoard(x, y) && g'[x][y] != EMPTY
      ensures WindowCount(g', x, y, g'[x][y]) <= 2
    {
      CountRectSet(g, x0, y0, EMPTY, Lo(x), Hi(x) + 1, Lo(y), Hi(y) + 1, g'[x][y]);
      // Names the old window count, so that ClusterFree(g) is instantiated at (x, y).
      var before := WindowCount(g, x, y, g'[x][y]);
    }
  }

  /** Setting a cell to `v` moves the chip counts by exactly the chip it removes and the one it adds. */
  lemma PieceCountSet(g: Grid, x: int, y: int, v: int, c: int)
    requires IsGrid(g) && OnBoard(x, y)
    ensures PieceCount(Set(g, x, y, v), c)
         == PieceCount(g, c) + (if v == c then 1 else 0) - (if g[x][y] == c then 1 else 0)
  {
    var before, after := Chips(g, c), Chips(Set(g, x, y, v), c);
    ChipsOffCell(g, x, y, v, c);
    assert (x, y) in after <==> v == c;
    assert (x, y) in before <==> g[x][y] == c;
    CardWithout(after, (x, y));
    CardWithout(before, (x, y));
  }

  /** Away from the updated cell, the chips of each colour are the same. */
  lemma ChipsOffCell(g: Grid, x: int, y: int, v: int, c: int)
    requires IsGrid(g) && OnBoard(x, y)
    ensures Chips(Set(g, x, y, v), c) - {(x, y)} == Chips(g, c) - {(x, y)}
  {
    var g' := Set(g, x, y, v);
    forall p | p in Chips(g', c) - {(x, y)} ensures p in Chips(g, c) {
      assert g'[p.0][p.1] == g[p.0][p.1];
    }
    forall p | p in Chips(g, c) - {(x, y)} ensures p in Chips(g', c) {
      assert g'[p.0][p.1] == g[p.0][p.1];
    }
  }

  /** Removing an element shrinks a set by one exactly when the element was there. */
  lemma CardWithout<T>(s: set<T>, p: T)
    ensures |s| == |s - {p}| + (if p in s then 1 else 0)
  {
    if p in s {
      assert s == (s - {p}) + {p};
    } else {
      assert s - {p} == s;
    }
  }

  /** A placement that passes `Check` keeps both board invariants. */
  lemma LegalPlacementKeepsInvariants(g: Grid, count: int, x: int, y: int, c: int)
    requires IsGrid(g) && OnBoard(x, y) && Rules(g) && ClusterFree(g) && IsColour(c)
    requires Check(g, count, x, y, c).None?
    ensures Rules(Set(g, x, y, c)) && ClusterFree(Set(g, x, y, c))
  {
    PlaceKeepsClusterFree(g, x, y, c);
  }

  /** Emptying a cell keeps both board invariants. */
  lemma VacateKeepsInvariants(g: Grid, x: int, y: int)
    requires IsGrid(g) && OnBoard(x, y) && Rules(g) && ClusterFree(g)
    ensures Rules(Set(g, x, y, EMPTY)) && ClusterFree(Set(g, x, y, EMPTY))
  {
    VacateKeepsClusterFree(g, x, y);
  }

  /** Putting back what a cell held before undoes the update. */
  lemma SetRestores(g: Grid, x: int, y: int, v: int)
    requires IsGrid(g) && OnBoard(x, y)
    ensures Set(Set(g, x, y, v), x, y, g[x][y]) == g
  {
    var r := Set(Set(g, x, y, v), x, y, g[x][y]);
    forall i | 0 <= i < SIDE ensures r[i] == g[i] {
      assert forall j :: 0 <= j < SIDE ==> r[i][j] == g[i][j];
    }
  }

  // ---------------------------------------------------------------------------
  // A whole position as one player sees it

  /** The colour that is not `c`. */
  function OtherColour(c: int): int {
    if c == BLACK then WHITE else BLACK
  }

  /**
   * A position consistent with the rules: the grid keeps the goal-line and
   * cluster rules, and the counters of the player of colour `mine` and of its
   * opponent equal their chips on the board, at most 10 each.
   */
  ghost predicate Consistent(g: Grid, colour: int, mine: int, theirs: int)
    requires IsGrid(g)
  {
    && IsColour(colour)
    && Rules(g) && ClusterFree(g)
    && mine == PieceCount(g, colour) && theirs == PieceCount(g, OtherColour(colour))
    && mine <= CHIP_LIMIT && theirs <= CHIP_LIMIT
  }

  /** A fresh player's position is consistent. */
  lemma EmptyConsistent(colour: int)
    requires IsColour(colour)
    ensures Consistent(EmptyGrid(), colour, 0, 0)
  {
    EmptyGridInvariants();
  }

  /** A legal opponent placement keeps the position consistent with one more opponent chip. */
  lemma PlaceKeepsConsistent(g: Grid, colour: int, mine: int, theirs: int, x: int, y: int)
    requires IsGrid(g) && OnBoard(x, y) && Consistent(g, colour, mine, theirs)
    requires Check(g, theirs, x, y, OtherColour(colour)).None?
    ensures Consistent(Set(g, x, y, OtherColour(colour)), colour, mine, theirs + 1)
  {
    LegalPlacementKeepsInvariants(g, theirs, x, y, OtherColour(colour));
    PieceCountSet(g, x, y, OtherColour(colour), colour);
    PieceCountSet(g, x, y, OtherColour(colour), OtherColour(colour));
  }

  /** Lifting an opponent chip keeps the position consistent with one opponent chip fewer. */
  lemma VacateKeepsConsistent(g: Grid, colour: int, mine: int, theirs: int, x: int, y: int)
    requires IsGrid(g) && OnBoard(x, y) && Consistent(g, colour, mine, theirs)
    requires g[x][y] == OtherColour(colour)
    ensures Consistent(Set(g, x, y, EMPTY), colour, mine, theirs - 1)
  {
    VacateKeepsInvariants(g, x, y);
    PieceCountSet(g, x, y, EMPTY, colour);
    PieceCountSet(g, x, y, EMPTY, OtherColour(colour));
  }
}
