/** The autotiler of `LevelGrid::determine_sprite_for`: it chooses a
    rendering descriptor and a rotation for a cell by matching the cell's
    3x3 neighbourhood against an ordered pattern dictionary, trying the
    neighbourhood in four clockwise orientations. */
module Autotiler {
  import opened Wrappers
  import opened Tiles
  import opened Rotation
  import opened LevelGrid

  /** The descriptor every concealed cell gets. */
  const Concealed: string := "concealed"

  /** One quarter turn, in degrees. */
  const QuarterTurn := 90

  /** A 3x3 neighbourhood of live tiles, `w[dx][dy]` being the tile at
      `(x + dx - 1, y + dy - 1)`. */
  type Window = seq<seq<Tile>>

  /** A 3x3 dictionary key. */
  type Pattern = seq<seq<PatternTile>>

  datatype PatternEntry = PatternEntry(key: Pattern, descriptor: string)

  /** The ordered pattern dictionary (`TilePatternMap`); earlier entries win. */
  type PatternMap = seq<PatternEntry>

  /** A descriptor and a rotation in degrees. */
  type Sprite = (string, int)

  /** Every key is a 3x3 matrix, as the dictionary's array type guarantees. */
  predicate WellFormed(dict: PatternMap) {
    forall i :: 0 <= i < |dict| ==> IsSquare3(dict[i].key)
  }

  /** The window entry at offset `(dx, dy)`: the tile there, or the default
      tile when that position is outside the grid. */
  function WindowCell(g: Grid, x: int, y: int, dx: int, dy: int): Tile {
    match GetTile(g, x + dx - 1, y + dy - 1)
    case Some(t) => t
    case None => DefaultTile()
  }

  /** The 3x3 window centred on `(x, y)`. */
  function WindowAt(g: Grid, x: int, y: int): (w: Window)
    ensures IsSquare3(w)
    ensures forall dx, dy :: 0 <= dx < 3 && 0 <= dy < 3 ==> w[dx][dy] == WindowCell(g, x, y, dx, dy)
  {
    [[WindowCell(g, x, y, 0, 0), WindowCell(g, x, y, 0, 1), WindowCell(g, x, y, 0, 2)],
     [WindowCell(g, x, y, 1, 0), WindowCell(g, x, y, 1, 1), WindowCell(g, x, y, 1, 2)],
     [WindowCell(g, x, y, 2, 0), WindowCell(g, x, y, 2, 1), WindowCell(g, x, y, 2, 2)]]
  }

  /** Each window position holds the tile at that offset from `(x, y)`,
      or the default tile where that offset leaves the grid. */
  lemma WindowAtSpec(g: Grid, x: int, y: int)
    ensures forall dx, dy :: 0 <= dx < 3 && 0 <= dy < 3 ==>
      WindowAt(g, x, y)[dx][dy] ==
        if InBounds(g, (x + dx - 1, y + dy - 1)) then g[x + dx - 1][y + dy - 1] else DefaultTile()
  {
    var w := WindowAt(g, x, y);
    forall dx, dy | 0 <= dx < 3 && 0 <= dy < 3
      ensures w[dx][dy] == if InBounds(g, (x + dx - 1, y + dy - 1)) then g[x + dx - 1][y + dy - 1] else DefaultTile()
    {
      assert w[dx][dy] == WindowCell(g, x, y, dx, dy);
    }
  }

  /** A key matches a window when the two, flattened in row-major order,
      match element by element. */
  predicate KeyMatches(p: Pattern, w: Window)
    requires IsSquare3(p) && IsSquare3(w)
  {
    forall k :: 0 <= k < 9 ==> Matches(Flatten(p)[k], Flatten(w)[k])
  }

  /** Comparing the flattened matrices is comparing all nine positions. */
  lemma KeyMatchesPositionwise(p: Pattern, w: Window)
    requires IsSquare3(p) && IsSquare3(w)
    ensures KeyMatches(p, w) <==>
      forall i, j :: 0 <= i < 3 && 0 <= j < 3 ==> Matches(p[i][j], w[i][j])
  {
    if KeyMatches(p, w) {
      forall i, j | 0 <= i < 3 && 0 <= j < 3 ensures Matches(p[i][j], w[i][j]) {
        var k := 3 * i + j;
        assert k / 3 == i && k % 3 == j;
        assert Matches(Flatten(p)[k], Flatten(w)[k]);
        FlattenIndex(p, k);
        FlattenIndex(w, k);
      }
    } else {
      var k :| 0 <= k < 9 && !Matches(Flatten(p)[k], Flatten(w)[k]);
      FlattenIndex(p, k);
      FlattenIndex(w, k);
    }
  }

  /** No dictionary entry matches the window turned `q` times. */
  predicate NoMatchIn(dict: PatternMap, w0: Window, q: nat)
    requires WellFormed(dict) && IsSquare3(w0)
  {
    forall j :: 0 <= j < |dict| ==> !KeyMatches(dict[j].key, RotatedTimes(w0, q))
  }

  /** The index of the first entry, from `from` on, whose key matches `w`. */
  function FirstMatch(dict: PatternMap, w: Window, from: nat): (r: Option<nat>)
    requires WellFormed(dict) && IsSquare3(w) && from <= |dict|
    decreases |dict| - from
    ensures r.Some? ==> from <= r.value < |dict| && KeyMatches(dict[r.value].key, w)
    ensures r.Some? ==> forall j :: from <= j < r.value ==> !KeyMatches(dict[j].key, w)
    ensures r.None? <==> forall j :: from <= j < |dict| ==> !KeyMatches(dict[j].key, w)
  {
    if from == |dict| then None
    else if KeyMatches(dict[from].key, w) then Some(from)
    else FirstMatch(dict, w, from + 1)
  }

  /** Pass `q` (not before `from`) and entry `i` decide the search: entry
      `i` matches the window turned `q` times, no earlier entry does, and no
      entry matches in any earlier pass. */
  predicate DecidesAt(dict: PatternMap, w0: Window, from: nat, q: nat, i: nat)
    requires WellFormed(dict) && IsSquare3(w0)
  {
    && from <= q < 4 && i < |dict|
    && KeyMatches(dict[i].key, RotatedTimes(w0, q))
    && (forall j :: 0 <= j < i ==> !KeyMatches(dict[j].key, RotatedTimes(w0, q)))
    && (forall q' :: from <= q' < q ==> NoMatchIn(dict, w0, q'))
  }

  /** The rotation search from pass `pass` on: the first pass in which some
      entry matches the window turned that many times decides, and within
      it the first matching entry; the rotation is 90 degrees per pass. */
  function Search(dict: PatternMap, w0: Window, pass: nat): (r: Option<Sprite>)
    requires WellFormed(dict) && IsSquare3(w0) && pass <= 4
    ensures r.Some? ==> QuarterTurn * pass <= r.value.1 < QuarterTurn * 4 && r.value.1 % QuarterTurn == 0
    ensures dict == [] ==> r.None?
    decreases 4 - pass
  {
    if pass == 4 then None
    else
      match FirstMatch(dict, RotatedTimes(w0, pass), 0)
      case Some(i) => Some((dict[i].descriptor, QuarterTurn * pass))
      case None => Search(dict, w0, pass + 1)
  }

  /** The search fails exactly when no pass from `pass` on has a match. */
  lemma {:induction false} SearchFails(dict: PatternMap, w0: Window, pass: nat)
    requires WellFormed(dict) && IsSquare3(w0) && pass <= 4
    decreases 4 - pass
    ensures Search(dict, w0, pass).None? ==> forall q :: pass <= q < 4 ==> NoMatchIn(dict, w0, q)
    ensures (forall q :: pass <= q < 4 ==> NoMatchIn(dict, w0, q)) ==> Search(dict, w0, pass).None?
  {
    if pass < 4 {
      if FirstMatch(dict, RotatedTimes(w0, pass), 0).Some? {
        assert Search(dict, w0, pass).Some?;
        assert !NoMatchIn(dict, w0, pass);
      } else {
        SearchFails(dict, w0, pass + 1);
        assert NoMatchIn(dict, w0, pass);
        assert Search(dict, w0, pass) == Search(dict, w0, pass + 1);
      }
    }
  }

  /** A pass without any match can be prepended to a deciding one. */
  lemma DecidesEarlier(dict: PatternMap, w0: Window, pass: nat, q: nat, i: nat)
    requires WellFormed(dict) && IsSquare3(w0)
    requires NoMatchIn(dict, w0, pass) && DecidesAt(dict, w0, pass + 1, q, i)
    ensures DecidesAt(dict, w0, pass, q, i)
  {
  }

  /** A successful search returns the descriptor of the entry that decides
      it, turned 90 degrees per pass before the deciding one. */
  lemma {:induction false} SearchDecides(dict: PatternMap, w0: Window, pass: nat)
    requires WellFormed(dict) && IsSquare3(w0) && pass <= 4
    decreases 4 - pass
    ensures Search(dict, w0, pass).Some? ==>
              exists q: nat, i: nat :: DecidesAt(dict, w0, pass, q, i) &&
                Search(dict, w0, pass).value == (dict[i].descriptor, QuarterTurn * q)
  {
    if pass < 4 {
      var m := FirstMatch(dict, RotatedTimes(w0, pass), 0);
      if m.Some? {
        assert DecidesAt(dict, w0, pass, pass, m.value);
      } else {
        SearchDecides(dict, w0, pass + 1);
        var r := Search(dict, w0, pass + 1);
        if r.Some? {
          var q: nat, i: nat :| DecidesAt(dict, w0, pass + 1, q, i) && r.value == (dict[i].descriptor, QuarterTurn * q);
          DecidesEarlier(dict, w0, pass, q, i);
        }
      }
    }
  }

  /** A decided search returns one of the four quarter-turn rotations. */
  lemma SearchRotation(dict: PatternMap, w0: Window)
    requires WellFormed(dict) && IsSquare3(w0)
    ensures Search(dict, w0, 0).Some? ==> Search(dict, w0, 0).value.1 in {0, 90, 180, 270}
  {
    SearchDecides(dict, w0, 0);
    var r := Search(dict, w0, 0);
    if r.Some? {
      var q: nat, i: nat :| DecidesAt(dict, w0, 0, q, i) && r.value == (dict[i].descriptor, QuarterTurn * q);
      assert q == 0 || q == 1 || q == 2 || q == 3;
    }
  }

  /** What `determine_sprite_for` computes: concealed cells get the fixed
      concealed descriptor without any matching; every other cell gets the
      result of the rotation search over its window, and no result when
      the dictionary has no entry for it (the source panics). */
  function SpriteFor(g: Grid, x: int, y: int, dict: PatternMap): (r: Option<Sprite>)
    requires InBounds(g, (x, y)) && WellFormed(dict)
    ensures r.Some? ==> r.value.1 in {0, 90, 180, 270}
    ensures dict == [] ==> (r.Some? <==> IsConcealed(g[x][y]))
  {
    if IsConcealed(TileAt(g, (x, y))) then Some((Concealed, 0))
    else Search(dict, WindowAt(g, x, y), 0)
  }

  /** A concealed cell always gets the concealed descriptor unturned; any
      other cell gets no sprite exactly when no entry matches its window in
      any orientation, and a sprite is always turned by a multiple of a
      quarter turn. */
  lemma SpriteForSpec(g: Grid, x: int, y: int, dict: PatternMap)
    requires InBounds(g, (x, y)) && WellFormed(dict)
    ensures IsConcealed(g[x][y]) ==> SpriteFor(g, x, y, dict) == Some((Concealed, 0))
    ensures SpriteFor(g, x, y, dict).Some? ==> SpriteFor(g, x, y, dict).value.1 in {0, 90, 180, 270}
    ensures !IsConcealed(g[x][y]) ==>
      (SpriteFor(g, x, y, dict).None? <==> forall q :: 0 <= q < 4 ==> NoMatchIn(dict, WindowAt(g, x, y), q))
  {
    if !IsConcealed(g[x][y]) {
      SearchFails(dict, WindowAt(g, x, y), 0);
      SearchRotation(dict, WindowAt(g, x, y));
    }
  }

  /** `determine_sprite_for`: returns the concealed descriptor for a
      concealed cell; otherwise fills a 3x3 key with default tiles,
      overwrites the in-bounds positions with the neighbourhood, and then
      for each of four passes walks the dictionary in order, comparing the
      flattened key with each entry's flattened key until one differs, and
      returns the first entry that agrees everywhere, rotating the key
      clockwise after every unsuccessful pass. `None` stands for the panic
      when all four passes fail. */
  method DetermineSpriteFor(g: Grid, x: int, y: int, dict: PatternMap) returns (r: Option<Sprite>)
    requires InBounds(g, (x, y)) && WellFormed(dict)
    ensures r == SpriteFor(g, x, y, dict)
  {
    var tile := GetTile(g, x, y).value;
    if tile == Ground(true) {
      return Some((Concealed, 0));
    }
    var key := FillWindow(g, x, y);
    ghost var w := key;
    for rotation := 0 to 4
      invariant IsSquare3(key) && key == RotatedTimes(w, rotation)
      invariant Search(dict, w, 0) == Search(dict, w, rotation)
    {
      for e := 0 to |dict|
        invariant FirstMatch(dict, key, 0) == FirstMatch(dict, key, e)
      {
        var patternMatch := KeysAgree(dict[e].key, key);
        if patternMatch {
          return Some((dict[e].descriptor, QuarterTurn * rotation));
        }
      }
      key := Rotate3x3(key);
    }
    return None;
  }

  /** The window-filling part of `determine_sprite_for`: a key of default
      tiles whose in-bounds positions are overwritten, row by row. */
  method FillWindow(g: Grid, x: int, y: int) returns (key: Window)
    ensures key == WindowAt(g, x, y)
  {
    var d := DefaultTile();
    key := [[d, d, d], [d, d, d], [d, d, d]];
    for dx := 0 to 3
      invariant IsSquare3(key)
      invariant forall i, j :: 0 <= i < dx && 0 <= j < 3 ==> key[i][j] == WindowCell(g, x, y, i, j)
      invariant forall i, j :: dx <= i < 3 && 0 <= j < 3 ==> key[i][j] == d
    {
      for dy := 0 to 3
        invariant IsSquare3(key)
        invariant forall i, j :: 0 <= i < dx && 0 <= j < 3 ==> key[i][j] == WindowCell(g, x, y, i, j)
        invariant forall j :: 0 <= j < dy ==> key[dx][j] == WindowCell(g, x, y, dx, j)
        invariant forall i, j :: dx <= i < 3 && 0 <= j < 3 && (i > dx || j >= dy) ==> key[i][j] == d
      {
        match GetTile(g, x + dx - 1, y + dy - 1) {
          case Some(t) => key := key[dx := key[dx][dy := t]];
          case None =>
        }
      }
    }
    SameElements(key, WindowAt(g, x, y));
  }

  /** The comparison loop of `determine_sprite_for`: zips the two flattened
      keys and stops at the first pair that is not pattern-equal. */
  method KeysAgree(p: Pattern, key: Window) returns (patternMatch: bool)
    requires IsSquare3(p) && IsSquare3(key)
    ensures patternMatch == KeyMatches(p, key)
  {
    var dictKey := Flatten(p);
    var flatKey := Flatten(key);
    patternMatch := true;
    var k := 0;
    while k < 9
      invariant 0 <= k <= 9
      invariant patternMatch
      invariant forall j :: 0 <= j < k ==> Matches(dictKey[j], flatKey[j])
    {
      if !Matches(dictKey[k], flatKey[k]) {
        patternMatch := false;
        break;
      }
      k := k + 1;
    }
  }
}
