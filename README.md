# Network machine player: board legality and connectivity graph

This project models the core of a machine player for the board game Network.
It is written in Dafny and verified.

Two components are modelled.

- **The player** (`player.dfy`, with the value-level specification in `board.dfy`).
  - It keeps its own 8x8 board, indexed `board[x][y]`. Each cell holds `BLACK = 0`, `WHITE = 1` or `EMPTY = -1`.
  - It keeps a chip counter for itself and one for its opponent.
  - Placing a chip runs the legality checks in the source's order:
    1. the mover has fewer than 10 chips;
    2. the cell is not a corner;
    3. Black does not use columns `x = 0, 7`, and White does not use rows `y = 0, 7`;
    4. the cell is empty;
    5. the cluster rule holds.
  - The cluster rule comes from the neighbour count. The placement is refused if the cell has more than one same-colour chip in its clamped 3x3 window. It is also refused if one of those chips already has a second same-colour chip in its own window.
  - The opponent's ADD and STEP moves are recorded through the same checks. STEP lifts the source chip, tries the placement, and puts the chip back if the placement fails.
- **The graph** (`graph.dfy`).
  - Vertices carry board coordinates, a list of incident edges and a `visited` mark.
  - Edges are immutable records holding a direction code and two endpoints.
  - The graph keeps its vertices in insertion order.
  - It keeps a weighted edge total. Each new edge adds 0.5^k, where k counts the same-direction edges in both endpoint lists after the edge has been linked in.
  - It also counts the edges that lie along a boundary line of the board.

## How the model is built

- **The board** is a `const board: array2<int>` of the `MachinePlayer` class.
  - A ghost field `cells` mirrors it as a `seq<seq<int>>` value (`Mirrors`).
  - Every rule is stated on such values in module `Board`. `Check` gives the verdict of one placement. `Rules` and `ClusterFree` are the board invariants. `Consistent` covers a whole position.
- **The class invariant** is `Valid`. It says the board keeps the goal-line and cluster rules, and each counter equals the number of chips of its colour, at most 10.
  - The constructor establishes it.
  - `OpponentMove` preserves it.
- **A refused placement** is signalled by an exception in the source. Here it is an `Option<MoveError>` result. The `MoveError` value names the failing check.
- **Lists** of the list package are sequences.
  - `edges` and `vertices` are `seq` fields that the methods reassign.
  - Vertices are objects compared by identity, as in the source.
- **Accessors** that only return a field are the field itself. These are `Vertex.x()`, `Vertex.y()`, `Vertex.visited()`, `Edge.direction()` and `Edge.getV()`. The coordinates and the edge fields are immutable (`const` or datatype fields).
- **`Graph.getEdgeCount()`** is the function `Graph.Graph.EdgeCount` (the edge total minus the boundary edges).

## Model

| member | source | states |
|---|---|---|
| Board.EmptyGrid | player/MachinePlayer.java:27-31 | the starting grid is 8x8 and every cell is EMPTY |
| Board.Set | player/MachinePlayer.java:189 | writing a cell sets exactly that cell and leaves every other cell as it was |
| Board.CheckRejects | player/MachinePlayer.java:161-185 | each of the five checks refuses on its own: chip budget reached (as TooManyChips), corner, Black on x = 0 or 7, White on y = 0 or 7, occupied cell; the first four need no board cell, so they also refuse off-board coordinates, and no off-board placement is ever accepted |
| Board.CheckAccepts | player/MachinePlayer.java:160-189 | a placement is accepted exactly when all checks pass, so the cell has at most one same-colour chip around it and each such chip has no second one around it |
| Board.NeighbourCountVerdict | player/MachinePlayer.java:186-188 | the outer neighbour count exceeds 1 exactly when the cluster rule fails |
| Board.CalmRowMeaning | player/MachinePlayer.java:194-201 | the per-row scan state used by the count is equivalent to "no chip scanned so far is crowded" |
| Board.CalmRectMeaning | player/MachinePlayer.java:193-205 | the scan state over whole rows is equivalent to "no chip in the scanned rows is crowded" |
| Board.CalmWindow | player/MachinePlayer.java:191-207 | a full scan with no early return means no chip in the window is crowded |
| Board.CountRectSet | player/MachinePlayer.java:189 | writing one cell changes a rectangle's count of a colour only if the cell is inside, and then by the chip removed and the chip added |
| Board.EmptyGridInvariants | player/MachinePlayer.java:23-34 | the empty board keeps every board rule and holds no chip of either colour |
| Board.CornersEmpty | player/MachinePlayer.java:167-172 | on a board that keeps the rules, no corner is occupied |
| Board.PlaceKeepsClusterFree | player/MachinePlayer.java:186-189 | a placement that passes the cluster rule leaves every chip with at most one same-colour neighbour |
| Board.VacateKeepsClusterFree | player/MachinePlayer.java:128-129 | lifting a chip never breaks the cluster invariant |
| Board.PieceCountSet | player/MachinePlayer.java:113-140 | writing a cell changes each colour's chip count by exactly the chip added and the chip removed |
| Board.LegalPlacementKeepsInvariants | player/MachinePlayer.java:160-189 | a placement accepted by the checks keeps the goal-line and cluster invariants |
| Board.VacateKeepsInvariants | player/MachinePlayer.java:128-129 | emptying a cell keeps the goal-line and cluster invariants |
| Board.SetRestores | player/MachinePlayer.java:128-135 | putting the saved chip back restores the board exactly |
| Board.EmptyConsistent | player/MachinePlayer.java:23-34 | a new player's position is consistent: no chips, both counters 0 |
| Board.PlaceKeepsConsistent | player/MachinePlayer.java:113-121 | a legal opponent placement with the counter incremented gives a consistent position |
| Board.VacateKeepsConsistent | player/MachinePlayer.java:123-130 | lifting an opponent chip with the counter decremented gives a consistent position |
| Player.MachinePlayer.constructor | player/MachinePlayer.java:23-34 | the new player has the given colour, an all-EMPTY 8x8 board, both counters 0, and satisfies the class invariant |
| Player.MachinePlayer.CountNeighbours | player/MachinePlayer.java:191-207 | the result is the number of same-colour chips in the clamped window; in the outer call it is 2 as soon as a window chip is crowded; every board index it reads is on the board |
| Player.MachinePlayer.MakeMove | player/MachinePlayer.java:158-190 | the result is the first failing check in source order, using the mover's counter, including off-board coordinates that an early check refuses; a refusal leaves the board unchanged; acceptance is only ever of an on-board cell and writes exactly that cell; the counters are never touched |
| Player.MachinePlayer.Write | player/MachinePlayer.java:189 | one board write, as at lines 129, 135 and 189: the array and its grid value change in exactly that cell |
| Player.MachinePlayer.OpponentMove | player/MachinePlayer.java:99-147 | QUIT and unknown kinds answer false; ADD and STEP answer true exactly when their checks pass; any false answer leaves board and counter as they were (STEP included); ADD adds exactly one to the counter; STEP keeps it, puts the chip on (x1, y1) and empties (x2, y2) when distinct; the class invariant is preserved |
| Player.MachinePlayer.ForceMove | player/MachinePlayer.java:154-156 | always answers false and changes nothing |
| Graph.Edge.Opposite | graph/Edge.java:13-19 | the result is an endpoint: `u` from `v`, and `v` from anything else |
| Graph.OppositeRoundTrip | graph/Edge.java:13-19 | crossing twice from either endpoint returns to it, self-loops included; from `u` one reaches `v` |
| Graph.Vertex.constructor | graph/Vertex.java:13-18 | the new vertex has the given coordinates, no edges, and is not visited |
| Graph.Vertex.IncidentEdges | graph/Vertex.java:19-32 | the copy holds the same edges in the same order, and the vertex is unchanged |
| Graph.Vertex.Visit | graph/Vertex.java:36-38 | afterwards the vertex is visited; only the mark may change |
| Graph.Vertex.Reset | graph/Vertex.java:39-41 | afterwards the vertex is not visited; only the mark may change |
| Graph.Vertex.AddEdge | graph/Vertex.java:42-44 | the edge is appended at the back and the earlier edges are kept in order |
| Graph.HalfBounds | graph/Graph.java:35-36 | every power of one half is in (0, 1], and from the second power on it is at most 0.25 |
| Graph.Neutral | graph/Graph.java:26-29 | the neutral increment is at most 2, and positive exactly when both endpoints lie on a common boundary line |
| Graph.FirstAt | graph/Graph.java:56-64 | the index returned is that of the first vertex at (x, y), or the length when there is none |
| Graph.EdgeWeight | graph/Graph.java:30-48 | the weight is one halved once per same-direction edge in each of the two lists |
| Graph.LinkedWeightBounds | graph/Graph.java:24-48 | once the new edge ends both lists, the weight it adds lies in (0, 0.25] |
| Graph.Graph.EdgeCount | graph/Graph.java:102-104 | the reported count is the weighted total less one unit per boundary line an edge lies along; a new graph reports 0 (constructor) and each InsertEdge moves it by the new weight minus that edge's neutral count |
| Graph.Graph.constructor | graph/Graph.java:12-16 | a new graph has no vertices, a zero edge total and no neutral edges, so its edge count is 0 |
| Graph.Graph.InsertVertex | graph/Graph.java:17-19 | the vertex is appended and earlier vertices keep their order |
| Graph.Graph.InsertEdge | graph/Graph.java:20-53 | the edge is appended to both endpoints' lists (twice to a self-loop's one list); the neutral count grows by the number of shared boundary lines; the total grows by 0.5^k with k counted after linking, so it strictly increases, by at most 0.25; the reported edge count moves by that weight minus the edge's neutral count |
| Graph.Graph.CountNeutral | graph/Graph.java:26-29 | the neutral count grows by exactly the number of the four boundary conditions that hold |
| Graph.Graph.GetVertex | graph/Graph.java:54-69 | when some vertex is at (x, y), the first such vertex in insertion order is returned |
| Graph.Graph.Reset | graph/Graph.java:70-80 | every vertex ends not visited; edge lists, coordinates and the vertex list are unchanged |

## Left out

- `chooseMove` (player/MachinePlayer.java:43-97) is not modelled. It retries coordinates drawn from `java.util.Random` with no bound on the number of tries. The random generator field is left out with it.
- The two-argument constructor (player/MachinePlayer.java:38-39) is not modelled. It is an empty stub that leaves the board unset.
- `InvalidMoveException` is not modelled as an exception. A refusal is an `Option<MoveError>` result, and the messages are not kept.
- Console output (`System.out.println`) and `Graph.debugPrint` are not modelled.
- The list package (`DList`, `DListNode`, `InvalidNodeException`) and the `Player` and `Move` classes are not part of this model.
  - Lists are sequences.
  - A move is a datatype with kinds QUIT, ADD, STEP and any other code.
- Player.MachinePlayer.MakeMove: requires the target to be on the board or refused by one of the checks made before the board is read (player/MachinePlayer.java:161-182). Those off-board targets are modelled and refused. The excluded inputs are off-board targets that pass all those checks: the source then reads `board[x][y]` at line 183 and throws an array-index exception, which is not modelled.
- Player.MachinePlayer.CountNeighbours: requires (x, y) on the board. The source's loop bounds are clamped (lines 193-194), so it never reads off the board for any (x, y). Both call sites (lines 186 and 197) pass on-board cells, so the precondition excludes no call the source makes.
- Player.MachinePlayer.OpponentMove: requires `InRange(m)`, which excludes exactly the moves that make the source throw an array-index exception. These are an ADD whose off-board target passes the early checks, a STEP whose source (x2, y2) is off the board, and a STEP whose source holds an opponent chip and whose off-board target passes the early checks. In that last case the source has already emptied (x2, y2) and decremented `opponentCount` (lines 129-130). The exception is not an `InvalidMoveException`, so the handler at line 133 does not restore them. That state change, which breaks the promise of lines 99-102, is not modelled. Off-board moves that the early checks refuse are modelled, and they answer false.
- Player.MachinePlayer.OpponentMove: requires the class invariant `Valid`, which the constructor establishes and every modelled operation preserves. The game code that increments `myCount` (`chooseMove`) is not modelled.
- Player.MachinePlayer.constructor: requires the colour to be 0 or 1, as the source's comment on the constructor demands.
- Graph.Graph.GetVertex: the contract says nothing when no vertex is at (x, y). In that case the source returns whatever its list walk last held: the last vertex, or a fresh vertex at (0, 0) when the list is empty. That depends on how the list class signals its end. The method does return exactly that, but only under that reading of the list class.
- Graph.Graph.InsertEdge: `edgeCount` is a `double` in the source and an exact `real` here. Each weight is an exact power of one half, but the running sum (graph/Graph.java:52) is rounded to 53 significant bits. Once the total spans more than 53 binary digits, an addition can be lost: 28 edges of one direction between the same two vertices make the 28th weight, 2^-56, a quarter of the last bit of the total. The strict increase of `edgeCount` therefore holds of the model only. It does not arise in play, where k stays small.
- Graph.Graph.InsertEdge: the four boundary tests are in the helper `CountNeutral`, and the two list scans are in the helper `EdgeWeight`. They run in the source's order and on the same lists.
