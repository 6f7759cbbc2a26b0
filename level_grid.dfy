/** The level grid: a ragged two-dimensional arrangement of cells, each
    identified by its integer coordinates `(x, y)`, where `x` selects the
    row and `y` the position inside that row. The tile storage is a
    sequence of rows of tiles with exactly the grid's shape. */
module LevelGrid {
  import opened Wrappers
  import opened Tiles

  type Cell = (int, int)
  type Grid = seq<seq<Tile>>

  /** Offsets of `direct_neighbors`, in the order they are tried. */
  const DirectOffsets: seq<(int, int)> := [(0, 1), (0, -1), (1, 0), (-1, 0)]

  /** Offsets of `diagonal_neighbors`, in the order they are tried. */
  const DiagonalOffsets: seq<(int, int)> := [(1, -1), (1, 1), (-1, 1), (-1, -1)]

  predicate InBounds(g: Grid, c: Cell) {
    0 <= c.0 < |g| && 0 <= c.1 < |g[c.0]|
  }

  /** The tile stored for an in-bounds cell. */
  function TileAt(g: Grid, c: Cell): Tile
    requires InBounds(g, c)
  {
    g[c.0][c.1]
  }

  /** `get`: bounds-checked lookup of the cell at `(x, y)`. Rows may differ
      in length, so the column bound is that of row `x`. */
  function Get(g: Grid, x: int, y: int): (r: Option<Cell>)
    ensures r.None? <==> (x < 0 || y < 0 || x >= |g| || y >= |g[x]|)
    ensures r.Some? ==> r.value == (x, y) && InBounds(g, r.value)
  {
    if x < 0 || y < 0 || x >= |g| then None
    else if y < |g[x]| then Some((x, y))
    else None
  }

  /** `get_tile`: the tile of the cell `get` finds, if any. */
  function GetTile(g: Grid, x: int, y: int): (r: Option<Tile>)
    ensures r.Some? <==> InBounds(g, (x, y))
    ensures r.Some? ==> r.value == g[x][y]
  {
    match Get(g, x, y)
    case None => None
    case Some(c) => Some(TileAt(g, c))
  }

  /** `x_len`: the number of rows; every row index lies below it and no
      cell lies at or beyond it. */
  function XLen(g: Grid): (n: nat)
    ensures forall x, y :: Get(g, x, y).Some? ==> x < n
    ensures forall x {:trigger g[x]} :: 0 <= x < |g| ==> x < n
    ensures n <= |g|
  {
    |g|
  }

  /** `y_len`: the length of the first row (the grid must have one). */
  function YLen(g: Grid): (n: nat)
    requires |g| > 0
    ensures forall y :: 0 <= y < n <==> Get(g, 0, y).Some?
  {
    |g[0]|
  }

  predicate Rectangular(g: Grid) {
    forall x :: 0 <= x < |g| ==> |g[x]| == |g[0]|
  }

  /** On a rectangular grid the cells are exactly the coordinates below
      `x_len` and `y_len`, which is what the level loader iterates over. */
  lemma RectangularExtent(g: Grid, x: int, y: int)
    requires |g| > 0 && Rectangular(g)
    ensures Get(g, x, y).Some? <==> 0 <= x < XLen(g) && 0 <= y < YLen(g)
  {
  }

  function Shift(x: int, y: int, d: (int, int)): Cell {
    (x + d.0, y + d.1)
  }

  /** The cells at the given offsets from `(x, y)` that `get` finds, in the
      order of the offsets. */
  function Around(g: Grid, x: int, y: int, offsets: seq<(int, int)>): (r: seq<Cell>)
    ensures |r| <= |offsets|
    ensures forall c :: c in r ==> InBounds(g, c)
  {
    if offsets == [] then []
    else
      var init := Around(g, x, y, offsets[..|offsets| - 1]);
      var d := offsets[|offsets| - 1];
      match Get(g, x + d.0, y + d.1)
      case Some(c) => init + [c]
      case None => init
  }

  /** `direct_neighbors`: tries the four side offsets in order and collects
      the cells that exist. */
  method DirectNeighbors(g: Grid, x: int, y: int) returns (result: seq<Cell>)
    ensures result == Around(g, x, y, DirectOffsets)
  {
    result := [];
    var offsets := DirectOffsets;
    for i := 0 to |offsets|
      invariant result == Around(g, x, y, offsets[..i])
    {
      var d := offsets[i];
      match Get(g, x + d.0, y + d.1) {
        case Some(c) => result := result + [c];
        case None =>
      }
      assert offsets[..i + 1][..i] == offsets[..i];
    }
    assert offsets[..|offsets|] == offsets;
  }

  /** `diagonal_neighbors`: tries the four corner offsets in order and
      collects the cells that exist. */
  method DiagonalNeighbors(g: Grid, x: int, y: int) returns (result: seq<Cell>)
    ensures result == Around(g, x, y, DiagonalOffsets)
  {
    result := [];
    var offsets := DiagonalOffsets;
    for i := 0 to |offsets|
      invariant result == Around(g, x, y, offsets[..i])
    {
      var d := offsets[i];
      match Get(g, x + d.0, y + d.1) {
        case Some(c) => result := result + [c];
        case None =>
      }
      assert offsets[..i + 1][..i] == offsets[..i];
    }
    assert offsets[..|offsets|] == offsets;
  }

  predicate Distinct<T(==)>(s: seq<T>) {
    forall i, j :: 0 <= i < j < |s| ==> s[i] != s[j]
  }

  /** A cell is collected exactly when it is in bounds and lies at one of
      the offsets. */
  lemma {:induction false} AroundMembership(g: Grid, x: int, y: int, offsets: seq<(int, int)>, c: Cell)
    ensures c in Around(g, x, y, offsets) <==>
      InBounds(g, c) && exists k :: 0 <= k < |offsets| && c == Shift(x, y, offsets[k])
  {
    if offsets != [] {
      var init := offsets[..|offsets| - 1];
      AroundMembership(g, x, y, init, c);
      var d := offsets[|offsets| - 1];
      if InBounds(g, c) && (exists k :: 0 <= k < |offsets| && c == Shift(x, y, offsets[k])) {
        var k :| 0 <= k < |offsets| && c == Shift(x, y, offsets[k]);
        if k < |offsets| - 1 {
          assert offsets[k] == init[k];
        }
      }
    }
  }

  /** Distinct offsets yield distinct cells. */
  lemma {:induction false} AroundDistinct(g: Grid, x: int, y: int, offsets: seq<(int, int)>)
    requires Distinct(offsets)
    ensures Distinct(Around(g, x, y, offsets))
  {
    if offsets != [] {
      var init := offsets[..|offsets| - 1];
      var d := offsets[|offsets| - 1];
      AroundDistinct(g, x, y, init);
      var c := Shift(x, y, d);
      forall k | 0 <= k < |init| ensures c != Shift(x, y, init[k]) {
        assert init[k] == offsets[k];
      }
      AroundMembership(g, x, y, init, c);
    }
  }

  /** The direct neighbours of a cell: at most four, pairwise distinct,
      never the cell itself, and exactly the in-bounds cells one step away
      along a row or a column (never diagonally). */
  lemma DirectNeighborsSpec(g: Grid, x: int, y: int)
    ensures |Around(g, x, y, DirectOffsets)| <= 4
    ensures Distinct(Around(g, x, y, DirectOffsets))
    ensures (x, y) !in Around(g, x, y, DirectOffsets)
    ensures forall c :: c in Around(g, x, y, DirectOffsets) <==>
      InBounds(g, c) && Dist(c.0, x) + Dist(c.1, y) == 1
  {
    AroundDistinct(g, x, y, DirectOffsets);
    forall c ensures c in Around(g, x, y, DirectOffsets) <==>
      InBounds(g, c) && Dist(c.0, x) + Dist(c.1, y) == 1
    {
      AroundMembership(g, x, y, DirectOffsets, c);
      if InBounds(g, c) && Dist(c.0, x) + Dist(c.1, y) == 1 {
        var k := if c.1 == y + 1 then 0 else if c.1 == y - 1 then 1 else if c.0 == x + 1 then 2 else 3;
        assert c == Shift(x, y, DirectOffsets[k]);
      }
    }
    AroundMembership(g, x, y, DirectOffsets, (x, y));
  }

  /** The diagonal neighbours of a cell: at most four, pairwise distinct,
      never the cell itself, and exactly the in-bounds cells one step away
      along both a row and a column. */
  lemma DiagonalNeighborsSpec(g: Grid, x: int, y: int)
    ensures |Around(g, x, y, DiagonalOffsets)| <= 4
    ensures Distinct(Around(g, x, y, DiagonalOffsets))
    ensures (x, y) !in Around(g, x, y, DiagonalOffsets)
    ensures forall c :: c in Around(g, x, y, DiagonalOffsets) <==>
      InBounds(g, c) && Dist(c.0, x) == 1 && Dist(c.1, y) == 1
  {
    AroundDistinct(g, x, y, DiagonalOffsets);
    forall c ensures c in Around(g, x, y, DiagonalOffsets) <==>
      InBounds(g, c) && Dist(c.0, x) == 1 && Dist(c.1, y) == 1
    {
      AroundMembership(g, x, y, DiagonalOffsets, c);
      if InBounds(g, c) && Dist(c.0, x) == 1 && Dist(c.1, y) == 1 {
        var k := if c.0 == x + 1 then (if c.1 == y - 1 then 0 else 1) else (if c.1 == y + 1 then 2 else 3);
        assert c == Shift(x, y, DiagonalOffsets[k]);
      }
    }
    AroundMembership(g, x, y, DiagonalOffsets, (x, y));
  }

  function Dist(a: int, b: int): nat {
    if a <= b then b - a else a - b
  }
}
