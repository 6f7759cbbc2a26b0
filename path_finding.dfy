/** Grid-constrained path finding (`LevelGrid::find_path`): a breadth-first
    search from a start cell whose successors are the walkable direct
    neighbours of a cell. Diagonal steps are never taken. */
module PathFinding {
  import opened Wrappers
  import opened Tiles
  import opened LevelGrid
  import Bfs

  /** The walkable cells among `cells`, in order. */
  function WalkableAmong(g: Grid, cells: seq<Cell>): (r: seq<Cell>)
    requires forall c :: c in cells ==> InBounds(g, c)
    ensures forall n :: n in r <==> n in cells && IsWalkable(TileAt(g, n))
    ensures |r| <= |cells|
  {
    if cells == [] then []
    else
      var rest := WalkableAmong(g, cells[1..]);
      if IsWalkable(TileAt(g, cells[0])) then [cells[0]] + rest else rest
  }

  /** `walkable_neighbors`: the direct neighbours of `c` whose tile is
      walkable, in `direct_neighbors` order. */
  function WalkableNeighbors(g: Grid, c: Cell): (r: seq<Cell>)
    ensures |r| <= 4
    ensures forall n :: n in r ==> InBounds(g, n) && IsWalkable(TileAt(g, n))
  {
    DirectNeighborsSpec(g, c.0, c.1);
    WalkableAmong(g, Around(g, c.0, c.1, DirectOffsets))
  }

  /** The successors are exactly the walkable in-bounds cells one step away
      along a row or a column. */
  lemma WalkableNeighborsSpec(g: Grid, c: Cell)
    ensures forall n :: n in WalkableNeighbors(g, c) <==>
      InBounds(g, n) && Dist(n.0, c.0) + Dist(n.1, c.1) == 1 && IsWalkable(TileAt(g, n))
  {
    DirectNeighborsSpec(g, c.0, c.1);
  }

  /** One move of a path: to a walkable cell next to the current one. */
  predicate Step(g: Grid, a: Cell, b: Cell) {
    b in WalkableNeighbors(g, a)
  }

  /** `p` leads from `s` to `d` by moves between direct neighbours, every
      cell after the first being walkable. */
  predicate IsPathBetween(g: Grid, p: seq<Cell>, s: Cell, d: Cell) {
    && |p| > 0 && p[0] == s && p[|p| - 1] == d
    && forall i :: 0 <= i < |p| - 1 ==> Step(g, p[i], p[i + 1])
  }

  /** The successor function handed to the search. */
  function Moves(g: Grid): Cell -> seq<Cell> {
    c => WalkableNeighbors(g, c)
  }

  /** The cells of the grid. */
  function AllCells(g: Grid): set<Cell> {
    set x, y | 0 <= x < |g| && 0 <= y < |g[x]| :: (x, y)
  }

  /** The search's paths are exactly the grid's paths. */
  lemma PathsAgree(g: Grid, p: seq<Cell>, s: Cell, d: Cell)
    ensures IsPathBetween(g, p, s, d) <==> Bfs.IsPath(Moves(g), p, s, d)
  {
  }

  /** No move leaves the grid. */
  lemma GridClosed(g: Grid)
    ensures Bfs.Closed(Moves(g), AllCells(g))
  {
    forall c, n | c in AllCells(g) && n in Moves(g)(c) ensures n in AllCells(g) {
      WalkableNeighborsSpec(g, c);
    }
  }

  /** `find_path`: breadth-first search from `start` for `destination`
      over the walkable direct neighbours. A returned path starts at
      `start`, ends at `destination`, moves only between direct neighbours
      onto walkable cells, and is as short as any such path; `None` means
      no such path exists. */
  method FindPath(g: Grid, start: Cell, destination: Cell) returns (r: Option<seq<Cell>>)
    requires InBounds(g, start)
    ensures r.Some? ==> IsPathBetween(g, r.value, start, destination)
    ensures r.Some? ==> forall p :: IsPathBetween(g, p, start, destination) ==> |r.value| <= |p|
    ensures r.None? ==> forall p :: !IsPathBetween(g, p, start, destination)
  {
    GridClosed(g);
    r := Bfs.Search(Moves(g), AllCells(g), start, destination);
    forall p ensures IsPathBetween(g, p, start, destination) <==> Bfs.IsPath(Moves(g), p, start, destination) {
      PathsAgree(g, p, start, destination);
    }
  }
}
