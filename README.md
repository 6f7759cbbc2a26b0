# RockRaiders grid engine in Dafny

This project models the grid engine of RockRaiders, a cave-exploration game
written in Rust, and proves properties of the model. The engine has three
parts.

- **Level grid** (`src/level/level_grid.rs`). The grid is ragged: every row
  can have its own length.
  - `get` and `get_tile` are bounds-checked lookups.
  - `direct_neighbors` and `diagonal_neighbors` list the in-bounds neighbours
    in a fixed order.
  - `determine_sprite_for` is the autotiler. It builds a 3x3 window of tiles
    around a cell and searches an ordered pattern dictionary under four
    clockwise rotations of that window.
  - `find_path` is a breadth-first search over the walkable direct
    neighbours.
- **Ground reveal** (`src/systems/ground_reveal.rs`). The reveal cascade is a
  flood fill on a timer. A min-priority queue holds `(time, cell)` entries.
  For each entry that is due, the cascade:
  - reveals the entry's cell;
  - schedules the concealed direct neighbours 50 ms later;
  - redraws the cells around the revealed one.
- **Rotation** (`src/util.rs`). `rotate_3x3` is the clockwise quarter turn of
  a 3x3 matrix that the autotiler uses.

Modelling choices:
- Cells are identified by their integer coordinates `(x, y)`, not by ECS
  entities and transforms.
- The tile storage is a `seq<seq<Tile>>` with the grid's shape.
- Time is a natural number of milliseconds.
- Rendering updates become a list of `Redraw(cell, descriptor, rotation)`
  records.

The modules follow the program:

| module | file | models |
|---|---|---|
| `Wrappers` | `wrappers.dfy` | the `Option` type |
| `Tiles` | `tiles.dfy` | the tile type and its operations, each given by an explicit definition taken from its call sites |
| `LevelGrid` | `level_grid.dfy` | lookup and neighbour lists |
| `Rotation` | `rotation.dfy` | `rotate_3x3` |
| `Autotiler` | `autotiler.dfy` | `determine_sprite_for` |
| `Bfs` | `bfs.dfy` | a breadth-first search written out in Dafny, standing in for the external `pathfinding` crate |
| `PathFinding` | `path_finding.dfy` | `find_path` and `walkable_neighbors` |
| `GroundReveal` | `ground_reveal.dfy` | `GroundRevealSystem::run` as a class over the tile storage, the queue and the redraw log |

The imperative parts are written as methods with loops. Each is proved equal
to a specification function, and the properties are proved as lemmas about
those functions:
- the neighbour lists;
- the window fill and the key comparison;
- the rotation;
- the search;
- the drain loop with its scheduling and redraw loops.

`GroundReveal.RevealSystem.Run` is proved equal to `RunSpec`, a recursion
that is one `Step` per loop iteration. Its termination measure is the number
of due entries.

## Model

| member | source | states |
|---|---|---|
| Tiles.Reveal | src/systems/ground_reveal.rs:53-55 | reports a change exactly for concealed ground, which becomes revealed ground; every other tile is returned unchanged |
| Tiles.RevealIdempotent | src/systems/ground_reveal.rs:53-55 | a second reveal of the same tile reports no change and leaves the tile as the first one made it |
| Tiles.RevealMakesWalkable | src/level/level_grid.rs:212-214 | a revealed tile is never concealed; it is walkable exactly when it was ground |
| Tiles.DefaultTile | src/level/level_grid.rs:81-89 | the filler for window positions outside the grid is an unbreakable wall without ore |
| Tiles.PatternEqSymmetric | src/level/level_grid.rs:100-101 | pattern equality does not depend on argument order |
| Tiles.PatternEq | src/level/level_grid.rs:100-101 | two walls always match, and matching tiles either both render as rock (wall or concealed ground) or are both revealed ground |
| Tiles.Matches | src/level/level_grid.rs:95-101 | the dictionary wildcard matches every tile, and a wall key cell matches every wall |
| Tiles.ConcealedReadsAsRock | src/level/level_grid.rs:100-101 | against any tile that is not concealed ground, concealed ground matches exactly what a wall matches |
| Tiles.IsWalkable | src/level/level_grid.rs:211-214 | only revealed ground is walkable: never a wall or concealed ground, and a walkable tile has nothing left to reveal |
| Tiles.PatternEqMeaning | src/level/level_grid.rs:100-101 | two tiles pattern-match when both are walls, both are revealed ground, or one is a wall and the other concealed ground |
| LevelGrid.Get | src/level/level_grid.rs:150-160 | returns nothing exactly when x < 0, y < 0, x is at least the number of rows, or y is at least the length of row x (rows may differ in length); otherwise returns the cell (x, y) |
| LevelGrid.GetTile | src/level/level_grid.rs:141-148 | returns a tile exactly for in-bounds coordinates, and then it is the stored tile |
| LevelGrid.XLen | src/level/level_grid.rs:62-64 | the number of rows: every row index is below it, no more than the row count, and every cell `get` finds has x below it |
| LevelGrid.YLen | src/level/level_grid.rs:66-68 | the result bounds exactly the positions `get` finds in the first row; the grid must have a row |
| LevelGrid.RectangularExtent | src/level/level_grid.rs:62-68 | on a rectangular grid, `get` succeeds exactly below `x_len` and `y_len` |
| LevelGrid.Around | src/level/level_grid.rs:43-47 | the cells the offsets reach from (x, y): at most one per offset, all in bounds |
| LevelGrid.AroundMembership | src/level/level_grid.rs:43-47 | a cell is listed exactly when it is in bounds and one of the offsets leads to it |
| LevelGrid.AroundDistinct | src/level/level_grid.rs:43-47 | with distinct offsets, no cell is listed twice |
| LevelGrid.DirectNeighbors | src/level/level_grid.rs:40-49 | the loop's result is the in-bounds cells among the offsets (0,1), (0,-1), (1,0), (-1,0), in that order |
| LevelGrid.DirectNeighborsSpec | src/level/level_grid.rs:40-49 | at most 4 cells, none repeated, never (x, y) itself; a cell is listed exactly when it is in bounds and one step away along a row or a column |
| LevelGrid.DiagonalNeighbors | src/level/level_grid.rs:51-60 | the loop's result is the in-bounds cells among (1,-1), (1,1), (-1,1), (-1,-1), in that order |
| LevelGrid.DiagonalNeighborsSpec | src/level/level_grid.rs:51-60 | at most 4 cells, none repeated, never (x, y) itself; a cell is listed exactly when it is in bounds and one step away along both axes |
| Rotation.Rotate3x3 | src/util.rs:1-11 | `result[x][y] == input[2 - y][x]` for all x, y in 0..3, and the result is the quarter turn `Rotated` |
| Rotation.Rotated | src/util.rs:5-9 | the quarter turn keeps the 3x3 shape |
| Rotation.RotatedTimes | src/level/level_grid.rs:94-111 | any number of quarter turns keeps the 3x3 shape |
| Rotation.Flatten | src/level/level_grid.rs:97-98 | row-major flattening gives nine elements |
| Rotation.FlattenIndex | src/level/level_grid.rs:97-98 | position k of the flattening is row k / 3, column k % 3 |
| Rotation.RotatedTwice | src/util.rs:7 | two turns move `m[x][y]` to `[2 - x][2 - y]` |
| Rotation.CentreFixed | src/util.rs:5-9 | the centre element stays in place |
| Rotation.FourTurnsIdentity | src/util.rs:7 | four turns give back the original matrix |
| Rotation.RotatedPermutes | src/util.rs:2-7 | the nine outputs are the nine inputs, as a multiset |
| Autotiler.WindowAt | src/level/level_grid.rs:81-92 | a 3x3 window whose every entry is the window cell at that offset |
| Autotiler.WindowAtSpec | src/level/level_grid.rs:81-92 | `key[dx][dy]` is the tile at (x+dx-1, y+dy-1) when that is in bounds and the default tile otherwise |
| Autotiler.FillWindow | src/level/level_grid.rs:81-92 | the nested fill loop produces exactly `WindowAt` |
| Autotiler.KeyMatchesPositionwise | src/level/level_grid.rs:96-105 | comparing the flattened key with the flattened window is comparing all nine positions |
| Autotiler.KeysAgree | src/level/level_grid.rs:96-105 | the comparison loop with its early exit returns true exactly when the key matches the window |
| Autotiler.FirstMatch | src/level/level_grid.rs:95-109 | the index found is the first dictionary entry, in declared order, whose key matches; none exactly when no entry matches |
| Autotiler.Search | src/level/level_grid.rs:94-111 | a sprite found from pass `pass` on is turned by a multiple of 90 degrees, at least 90 times `pass` and below 360; an empty dictionary finds nothing |
| Autotiler.SpriteFor | src/level/level_grid.rs:70-113 | a sprite's rotation is one of 0, 90, 180, 270; with an empty dictionary only concealed cells get a sprite |
| Autotiler.SearchFails | src/level/level_grid.rs:94-112 | the search fails exactly when no entry matches in any of the four orientations |
| Autotiler.SearchDecides | src/level/level_grid.rs:94-111 | a found sprite is the descriptor of the first matching entry in the first pass that has a match, with rotation 90 times that pass |
| Autotiler.SearchRotation | src/level/level_grid.rs:107-111 | a found rotation is one of 0, 90, 180, 270 |
| Autotiler.SpriteForSpec | src/level/level_grid.rs:77-112 | a concealed cell gets ("concealed", 0) whatever its neighbours; any other cell gets no sprite exactly when no entry matches in any orientation; a rotation is a multiple of a quarter turn |
| Autotiler.DetermineSpriteFor | src/level/level_grid.rs:70-113 | the method, with its fill loops, rotation passes and early exits, returns `SpriteFor` |
| Bfs.Search | src/level/level_grid.rs:172-176 | a returned path leads from start to destination by successor moves and is no longer than any other such path; none exactly when no such path exists |
| PathFinding.WalkableAmong | src/level/level_grid.rs:209-218 | keeps exactly the listed cells whose tile is walkable |
| PathFinding.WalkableNeighbors | src/level/level_grid.rs:191-221 | at most 4 successors, each in bounds and walkable |
| PathFinding.WalkableNeighborsSpec | src/level/level_grid.rs:191-221 | the successors are exactly the walkable in-bounds cells one step away along a row or a column; diagonals are excluded |
| PathFinding.PathsAgree | src/level/level_grid.rs:172-176 | a path of the grid is exactly a path of the search's successor function |
| PathFinding.GridClosed | src/level/level_grid.rs:206-218 | no move leaves the grid |
| PathFinding.FindPath | src/level/level_grid.rs:162-189 | a returned path starts at `start` and ends at `destination`; it moves only between direct neighbours onto walkable cells, and it is as short as any such path; none means no such path exists |
| GroundReveal.MinIndex | src/systems/ground_reveal.rs:47-50 | the entry the heap pops next comes before every queued entry: earliest time first, ties broken by the row-major entity order |
| GroundReveal.Popped | src/systems/ground_reveal.rs:50 | popping removes exactly one copy of the earliest entry |
| GroundReveal.Pushed | src/systems/ground_reveal.rs:64-73 | at most one entry per listed cell |
| GroundReveal.Kept | src/systems/ground_reveal.rs:64-79 | at most one cell kept per listed cell |
| GroundReveal.PushedOrKept | src/systems/ground_reveal.rs:64-79 | every direct neighbour is either scheduled or kept for redrawing, never both and never neither |
| GroundReveal.PushedSpec | src/systems/ground_reveal.rs:64-73 | an entry is pushed exactly when its cell is a listed neighbour whose tile is concealed, with the given time |
| GroundReveal.KeptSpec | src/systems/ground_reveal.rs:64-79 | a cell stays on the refresh list exactly when it is a listed neighbour whose tile is not concealed |
| GroundReveal.IndexOf | src/systems/ground_reveal.rs:74 | the position found holds the cell, and no earlier position does |
| GroundReveal.PushedNeighbours | src/systems/ground_reveal.rs:62-73 | the entries pushed for a cell are exactly its concealed direct neighbours, each at the given time |
| GroundReveal.ScheduleNeighbours | src/systems/ground_reveal.rs:61-79 | the loop appends to the queue one entry per concealed direct neighbour, timed at now + 50, and leaves on the list exactly the unscheduled direct neighbours, in order |
| GroundReveal.RefreshList | src/systems/ground_reveal.rs:81-82 | every cell of the refresh list is on the grid |
| GroundReveal.RefreshListSpec | src/systems/ground_reveal.rs:61-82 | the refresh list ends with the revealed cell; it holds exactly that cell, its direct neighbours that are not concealed and all its diagonal neighbours |
| GroundReveal.CellsOf | src/systems/ground_reveal.rs:94-97 | the cells the redraws are for, position by position |
| GroundReveal.Redraws | src/systems/ground_reveal.rs:84-100 | at most one redraw per listed cell |
| GroundReveal.RedrawsSound | src/systems/ground_reveal.rs:84-98 | every redraw is for a listed cell that is not concealed, with the autotiler's sprite for it |
| GroundReveal.RedrawsInOrder | src/systems/ground_reveal.rs:84-98 | a pass that succeeds redraws exactly the cells that are not concealed, in list order |
| GroundReveal.RedrawsSucceed | src/systems/ground_reveal.rs:84-100 | a pass succeeds exactly when the autotiler has a sprite for every listed cell that is not concealed |
| GroundReveal.RedrawsSpec | src/systems/ground_reveal.rs:84-100 | every redraw is for a listed cell that is not concealed, with the autotiler's sprite for it; a pass that succeeds redraws exactly the non-concealed cells, in order; a pass succeeds exactly when each of them has a sprite |
| GroundReveal.RedrawAll | src/systems/ground_reveal.rs:84-100 | the draining loop produces the redraws and the success flag of `Redraws` |
| GroundReveal.Put | src/systems/ground_reveal.rs:53 | writing one tile keeps the grid's shape |
| GroundReveal.Step | src/systems/ground_reveal.rs:50-100 | an iteration is stale exactly when the popped cell is not concealed ground, and it only appends to the redraws |
| GroundReveal.StepQueue | src/systems/ground_reveal.rs:50-73 | after an iteration that reveals, the queue is the popped queue followed by the entries pushed for the popped cell's direct neighbours |
| GroundReveal.StepKeepsValid | src/systems/ground_reveal.rs:50-82 | an iteration keeps every queued cell on the grid and keeps the grid's shape |
| GroundReveal.StepShrinksDue | src/systems/ground_reveal.rs:47-50 | an iteration consumes one due entry and adds none that is due, so the loop terminates |
| GroundReveal.StepStale | src/systems/ground_reveal.rs:53-55 | an iteration stops early exactly when the popped cell has nothing to reveal; the tiles and the redraws are then unchanged, and only the popped entry leaves the queue |
| GroundReveal.StepRevealsOnlyPopped | src/systems/ground_reveal.rs:53-68 | an iteration that reveals turns the popped concealed cell into revealed ground and leaves every other tile as it was |
| GroundReveal.StepSchedules | src/systems/ground_reveal.rs:50-73 | the new queue is the old one minus the popped entry plus the entries pushed for the popped cell's direct neighbours |
| GroundReveal.StepKeepsOthers | src/systems/ground_reveal.rs:50 | every entry other than the popped one is still queued after an iteration |
| GroundReveal.StepOnlyReveals | src/systems/ground_reveal.rs:53 | an iteration keeps the grid's shape and changes tiles only from concealed ground to revealed ground |
| GroundReveal.RunSpec | src/systems/ground_reveal.rs:47-101 | a run keeps every queued cell on the grid, and a run that drains leaves no entry due |
| GroundReveal.CopyStaysEarliest | src/systems/ground_reveal.rs:47-50 | a second copy of the earliest entry stays earliest after the first is popped and only later entries are added |
| GroundReveal.CopyPoppedNext | src/systems/ground_reveal.rs:47-73 | after an iteration that reveals, a second copy of the popped entry is the next one popped |
| GroundReveal.DuplicateEntryHalts | src/systems/ground_reveal.rs:47-55 | when the earliest due entry is queued twice, the run cannot drain; if it halts, every other entry, due or not, is still queued |
| GroundReveal.RunOnlyReveals | src/systems/ground_reveal.rs:47-101 | a run keeps the grid's shape and only turns concealed ground into revealed ground |
| GroundReveal.RunDrains | src/systems/ground_reveal.rs:47-49 | a run that drains leaves only entries timed after now |
| GroundReveal.RunKeepsFuture | src/systems/ground_reveal.rs:47-55 | every entry timed after now is still queued after a run, however the run ends |
| GroundReveal.RunExtendsRedrawn | src/systems/ground_reveal.rs:84-98 | a run only appends to the redraws already sent |
| GroundReveal.RevealSystem.Schedule | src/level/level_state.rs:139-148 | seeding the cascade pushes one entry and changes nothing else |
| GroundReveal.RevealSystem.RevealNext | src/systems/ground_reveal.rs:50-100 | one loop iteration updates the tiles, the queue and the redraw log exactly as `Step` says |
| GroundReveal.RevealSystem.Run | src/systems/ground_reveal.rs:43-102 | the drain loop ends with the outcome and the state that `RunSpec` gives, and keeps every queued cell on the grid |

## Left out

- Asset loading, mesh and material storages, camera, UI, oxygen, movement and entity spawning are not modelled. They are rendering and ECS plumbing.
- Rendering is a recorded `Redraw` per updated cell. The transform update (`set_transform`) and the asset insertion become that record.
- `grid_position_of` is not modelled. Cells are coordinates, so no float transform has to be turned back into a position.
- `find_path`'s final map to float `Point2` values is left out for the same reason. `PathFinding.FindPath` returns the cells themselves.
- `update_tile` (`src/level/level_grid.rs:115-139`) is not modelled. It recomputes one sprite with `determine_sprite_for`, which is modelled, and then does float rotation and asset insertion.
- `Tile::pattern_eq`, `Tile::reveal`, `Tile::is_walkable` and `Tile::default` are defined in `tiles.dfy` from how they are used: `reveal` reports a change (`src/systems/ground_reveal.rs:53`), `is_walkable` filters path steps (`src/level/level_grid.rs:212-214`), `pattern_eq` compares window cells (`src/level/level_grid.rs:101`) and `default` fills the window (`src/level/level_grid.rs:81`). The tile shape is `Wall{breakable, ore} | Ground{concealed}`.
- Tiles.PatternEq: the matching pairs are wall~wall, revealed ground~revealed ground, and concealed ground~wall in both orders; concealed ground~concealed ground is taken as no match.
- Tiles.DefaultTile: the default tile is taken to be an unbreakable wall without ore.
- The external `pathfinding` crate is replaced by `Bfs.Search`, a layered breadth-first search with the same contract: a shortest path or none. When start and destination coincide it returns `[start]`, as the crate does. Which of several shortest paths is returned may differ from the crate.
- `i32` coordinates and `usize` lengths are unbounded integers. No coordinate arithmetic in the core comes near the 32-bit range for a real level.
- `GroundReveal`: the `BinaryHeap` is modelled as an unordered sequence together with the position of its minimum (`MinIndex`). The heap's internal layout is not modelled, only which entry it pops.
- `GroundReveal`: ties on time are broken by entity, and entities are created row by row (`src/level/level_grid.rs:20-35`). The model therefore orders tied entries by `(x, y)` lexicographically.
- `GroundReveal`: a stale entry (a cell with nothing left to reveal) ends the drain with `break` (`src/systems/ground_reveal.rs:53-55`). Due entries after it stay queued until the next run. `DuplicateEntryHalts` shows one consequence: a cell queued twice for the same time stops the drain on its second copy.
- `GroundReveal`: the panic of `determine_sprite_for` when no pattern matches becomes a `None` sprite. The run then ends with `Panicked`, and the redraws sent before that cell are kept.
- `GroundReveal`: `now` is the frame's absolute time in milliseconds, a parameter of `Run`. `Duration` arithmetic is natural-number addition.
- GroundReveal.ScheduleNeighbours, GroundReveal.RedrawAll: these loops work on sequence values that `RevealSystem.RevealNext` then stores in its fields. The neighbour list is a local `Vec` in the source, so nothing is aliased.
- The `unwrap` calls on component lookups (`tiles.get_mut`, `transforms.get`) are total in the model. Every queued and listed cell is on the grid, which `StepKeepsValid` and `RefreshList` prove.
