/** The cell value type of the cave grid and the relations the grid engine
    uses on it: pattern equality, revealing, walkability and the default
    tile that fills the out-of-range part of a pattern window. */
module Tiles {

  /** Upper bound (exclusive) of Rust's `u8`. */
  const ByteLimit := 256

  type U8 = n: int | 0 <= n < ByteLimit

  /** A live grid cell: a wall (possibly breakable, possibly holding ore)
      or ground that is either still concealed or already revealed. */
  datatype Tile = Wall(breakable: bool, ore: U8) | Ground(concealed: bool)

  /** A cell of a pattern-dictionary key: a wildcard or a concrete tile.
      The wildcard never occurs in the live grid, which holds `Tile`s only. */
  datatype PatternTile = Any | Is(tile: Tile)

  /** A concealed ground tile renders as rock until it is revealed. */
  predicate IsConcealed(t: Tile) {
    t == Ground(true)
  }

  /** The tile used for window positions outside the grid. */
  function DefaultTile(): (t: Tile)
    ensures t.Wall? && !t.breakable && t.ore == 0
  {
    Wall(false, 0)
  }

  /** Pattern equality: walls match walls whatever their attributes,
      revealed ground matches revealed ground, and concealed ground matches
      walls in both directions. Every other pair differs. Two walls always
      match, and matching tiles either both render as rock (a wall or
      concealed ground) or are both revealed ground. */
  predicate PatternEq(a: Tile, b: Tile): (r: bool)
    ensures a.Wall? && b.Wall? ==> r
    ensures r ==> (a.Wall? || IsConcealed(a)) == (b.Wall? || IsConcealed(b))
  {
    match (a, b)
    case (Wall(_, _), Wall(_, _)) => true
    case (Ground(false), Ground(false)) => true
    case (Ground(true), Wall(_, _)) => true
    case (Wall(_, _), Ground(true)) => true
    case _ => false
  }

  /** A dictionary cell matches a window cell when it is the wildcard or
      pattern-equal to it. */
  predicate Matches(p: PatternTile, t: Tile): (r: bool)
    ensures p.Any? ==> r
    ensures p.Is? && p.tile.Wall? && t.Wall? ==> r
  {
    p.Any? || PatternEq(p.tile, t)
  }

  /** Only revealed ground can be walked on: walls and concealed ground
      cannot, and a walkable tile has nothing left to reveal. */
  predicate IsWalkable(t: Tile): (r: bool)
    ensures r ==> t.Ground? && !IsConcealed(t)
    ensures t.Wall? || IsConcealed(t) ==> !r
    ensures r ==> !Reveal(t).0
  {
    t == Ground(false)
  }

  /** Revealing a tile: concealed ground becomes revealed ground and the
      result reports the change; any other tile is left as it is and the
      result reports no change. */
  function Reveal(t: Tile): (r: (bool, Tile))
    ensures r.0 <==> IsConcealed(t)
    ensures r.0 ==> r.1 == Ground(false)
    ensures !r.0 ==> r.1 == t
  {
    if t == Ground(true) then (true, Ground(false)) else (false, t)
  }

  /** Pattern equality is symmetric. */
  lemma PatternEqSymmetric(a: Tile, b: Tile)
    ensures PatternEq(a, b) == PatternEq(b, a)
  {
  }

  /** Pattern equality in terms of how tiles render: two tiles match when
      they are both walls, both revealed ground, or one is a wall and the
      other concealed ground. */
  lemma PatternEqMeaning(a: Tile, b: Tile)
    ensures PatternEq(a, b) <==>
      (a.Wall? && b.Wall?) || (IsWalkable(a) && IsWalkable(b)) ||
      (a.Wall? && IsConcealed(b)) || (IsConcealed(a) && b.Wall?)
  {
  }

  /** Concealed ground reads as rock to the autotiler: against any tile
      that is not itself concealed ground, it matches exactly what a wall
      matches. */
  lemma ConcealedReadsAsRock(breakable: bool, ore: U8, t: Tile)
    requires !IsConcealed(t)
    ensures PatternEq(Ground(true), t) == PatternEq(Wall(breakable, ore), t)
    ensures PatternEq(t, Ground(true)) == PatternEq(t, Wall(breakable, ore))
  {
  }

  /** Revealing is idempotent: a second reveal reports no change and keeps
      the tile the first one produced. */
  lemma RevealIdempotent(t: Tile)
    ensures !Reveal(Reveal(t).1).0
    ensures Reveal(Reveal(t).1).1 == Reveal(t).1
  {
  }

  /** After a reveal the tile is never concealed, and it is walkable exactly
      when it was ground. */
  lemma RevealMakesWalkable(t: Tile)
    ensures !IsConcealed(Reveal(t).1)
    ensures IsWalkable(Reveal(t).1) <==> t.Ground?
  {
  }
}
