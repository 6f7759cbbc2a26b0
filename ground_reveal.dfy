/** The timed reveal cascade (`GroundRevealSystem::run`). A min-priority
    queue of `(timestamp, cell)` entries is drained up to the current time:
    each due entry reveals its cell, schedules the cell's concealed direct
    neighbours one delay later, and re-runs the autotiler on the cell, its
    other direct neighbours and its diagonal neighbours. Times are whole
    milliseconds; cells stand for the tile entities at those coordinates;
    the rendering update is recorded as a list of redraws. */
module GroundReveal {
  import opened Wrappers
  import opened Tiles
  import opened LevelGrid
  import opened Autotiler

  /** Milliseconds between a cell's reveal and its concealed neighbours'. */
  const RevealDelay: nat := 50

  /** A queue entry: the cell to reveal and the time it becomes due. */
  datatype Entry = Entry(time: nat, cell: Cell)

  /** One rendering update: the cell's new descriptor and rotation. */
  datatype Redraw = Redraw(cell: Cell, descriptor: string, rotation: int)

  /** How a run of the system ends: every due entry was handled, an entry
      for a cell with nothing left to reveal stopped the run, or the
      autotiler found no sprite (the source panics). */
  datatype Outcome = Drained | Halted | Panicked

  /** How one iteration of the drain loop ends. */
  datatype Turn = Revealed | Stale | Crashed

  /** The state the system works on: the tile storage, the reveal queue
      (a bag of entries; the sequence order carries no meaning) and the
      redraws sent to rendering so far. */
  datatype World = World(tiles: Grid, queue: seq<Entry>, redrawn: seq<Redraw>)

  /** Every queued entry names a tile of the grid. */
  predicate ValidWorld(w: World) {
    forall e :: e in w.queue ==> InBounds(w.tiles, e.cell)
  }

  /** Tile entities are created row by row, so entity order is the
      lexicographic order of the coordinates. */
  predicate CellBefore(a: Cell, b: Cell) {
    a.0 < b.0 || (a.0 == b.0 && a.1 <= b.1)
  }

  /** The order in which `Reverse<(Duration, Entity)>` makes the heap pop:
      earlier time first, ties broken by entity. */
  predicate Before(a: Entry, b: Entry) {
    a.time < b.time || (a.time == b.time && CellBefore(a.cell, b.cell))
  }

  /** The position of the entry the heap pops next: no entry comes before it. */
  function MinIndex(q: seq<Entry>): (i: nat)
    requires q != []
    ensures i < |q|
    ensures forall j :: 0 <= j < |q| ==> Before(q[i], q[j])
  {
    if |q| == 1 then 0
    else
      var k := 1 + MinIndex(q[1..]);
      assert forall j :: 1 <= j < |q| ==> q[j] == q[1..][j - 1];
      if Before(q[0], q[k]) then 0 else k
  }

  /** The entry `peek` shows and `pop` removes. */
  function Earliest(q: seq<Entry>): Entry
    requires q != []
  {
    q[MinIndex(q)]
  }

  /** The queue after `pop`. */
  function Popped(q: seq<Entry>): (r: seq<Entry>)
    requires q != []
    ensures multiset(r) == multiset(q) - multiset{Earliest(q)}
  {
    var i := MinIndex(q);
    assert q == q[..i] + [q[i]] + q[i + 1..];
    q[..i] + q[i + 1..]
  }

  /** The loop condition: the queue is not empty and its earliest entry is
      due at `now`. */
  predicate Due(q: seq<Entry>, now: nat) {
    q != [] && Earliest(q).time <= now
  }

  /** The number of entries due at `now`. */
  function DueCount(q: seq<Entry>, now: nat): nat {
    if q == [] then 0
    else (if q[0].time <= now then 1 else 0) + DueCount(q[1..], now)
  }

  /** The entries pushed for the concealed cells among `cells`, in order. */
  function Pushed(g: Grid, cells: seq<Cell>, at: nat): (r: seq<Entry>)
    requires forall c :: c in cells ==> InBounds(g, c)
    ensures |r| <= |cells|
  {
    if cells == [] then []
    else
      var rest := Pushed(g, cells[1..], at);
      if IsConcealed(TileAt(g, cells[0])) then [Entry(at, cells[0])] + rest else rest
  }

  /** The cells among `cells` that are not concealed, in order. */
  function Kept(g: Grid, cells: seq<Cell>): (r: seq<Cell>)
    requires forall c :: c in cells ==> InBounds(g, c)
    ensures |r| <= |cells|
  {
    if cells == [] then []
    else
      var rest := Kept(g, cells[1..]);
      if IsConcealed(TileAt(g, cells[0])) then rest else [cells[0]] + rest
  }

  /** Every listed cell is either scheduled or kept for redrawing, never
      both and never neither. */
  lemma {:induction false} PushedOrKept(g: Grid, cells: seq<Cell>, at: nat)
    requires forall c :: c in cells ==> InBounds(g, c)
    ensures |Pushed(g, cells, at)| + |Kept(g, cells)| == |cells|
  {
    if cells != [] {
      assert forall c :: c in cells[1..] ==> c in cells;
      PushedOrKept(g, cells[1..], at);
    }
  }

  /** The pushed entries are exactly the concealed cells of `cells`, each
      at time `at`. */
  lemma {:induction false} PushedSpec(g: Grid, cells: seq<Cell>, at: nat)
    requires forall c :: c in cells ==> InBounds(g, c)
    ensures forall e :: e in Pushed(g, cells, at) <==>
      e.time == at && e.cell in cells && IsConcealed(TileAt(g, e.cell))
  {
    if cells != [] {
      PushedSpec(g, cells[1..], at);
      assert forall c :: c in cells <==> c == cells[0] || c in cells[1..];
    }
  }

  /** The kept cells are exactly the cells of `cells` that are not
      concealed. */
  lemma {:induction false} KeptSpec(g: Grid, cells: seq<Cell>)
    requires forall c :: c in cells ==> InBounds(g, c)
    ensures forall c :: c in Kept(g, cells) <==> c in cells && !IsConcealed(TileAt(g, c))
  {
    if cells != [] {
      KeptSpec(g, cells[1..]);
      assert forall c :: c in cells <==> c == cells[0] || c in cells[1..];
    }
  }

  /** `Iterator::position`: the first index at which `x` occurs. */
  function IndexOf(s: seq<Cell>, x: Cell): (i: nat)
    requires x in s
    ensures i < |s| && s[i] == x
    ensures forall j :: 0 <= j < i ==> s[j] != x
  {
    if s[0] == x then 0 else 1 + IndexOf(s[1..], x)
  }

  /** Unfolding `Kept` and `Pushed` on a suffix by one cell. */
  lemma SuffixStep(g: Grid, cells: seq<Cell>, k: nat, at: nat)
    requires forall c :: c in cells ==> InBounds(g, c)
    requires k < |cells|
    ensures cells[k..] == [cells[k]] + cells[k + 1..]
    ensures Kept(g, cells[k..]) ==
      (if IsConcealed(TileAt(g, cells[k])) then [] else [cells[k]]) + Kept(g, cells[k + 1..])
    ensures Pushed(g, cells[k..], at) ==
      (if IsConcealed(TileAt(g, cells[k])) then [Entry(at, cells[k])] else []) + Pushed(g, cells[k + 1..], at)
  {
    assert cells[k..][0] == cells[k] && cells[k..][1..] == cells[k + 1..];
  }

  /** The scheduling loop's state after `k` of the direct neighbours of
      `c`: `kept` holds the unscheduled ones seen so far and `pushed` the
      entries pushed so far. */
  predicate Scheduling(g: Grid, c: Cell, k: nat, at: nat, q0: seq<Entry>, queue: seq<Entry>,
                       kept: seq<Cell>, pushed: seq<Entry>, neighbors: seq<Cell>)
  {
    var direct := Around(g, c.0, c.1, DirectOffsets);
    && k <= |direct|
    && queue == q0 + pushed
    && neighbors == kept + direct[k..]
    && (forall j :: k <= j < |direct| ==> direct[j] !in kept)
    && Kept(g, direct) == kept + Kept(g, direct[k..])
    && Pushed(g, direct, at) == pushed + Pushed(g, direct[k..], at)
  }

  /** The scheduling loop starts with the whole neighbour list and an
      untouched queue. */
  lemma SchedulingStarts(g: Grid, c: Cell, at: nat, q0: seq<Entry>)
    ensures Scheduling(g, c, 0, at, q0, q0, [], [], Around(g, c.0, c.1, DirectOffsets))
  {
    var direct := Around(g, c.0, c.1, DirectOffsets);
    assert direct[0..] == direct;
    assert q0 + [] == q0;
  }

  /** When the scheduling loop has seen every neighbour, the queue holds
      the pushed entries and the list the kept cells. */
  lemma SchedulingEnds(g: Grid, c: Cell, at: nat, q0: seq<Entry>, queue: seq<Entry>,
                       kept: seq<Cell>, pushed: seq<Entry>, neighbors: seq<Cell>)
    requires Scheduling(g, c, |Around(g, c.0, c.1, DirectOffsets)|, at, q0, queue, kept, pushed, neighbors)
    ensures queue == q0 + Pushed(g, Around(g, c.0, c.1, DirectOffsets), at)
    ensures neighbors == Kept(g, Around(g, c.0, c.1, DirectOffsets))
  {
    var direct := Around(g, c.0, c.1, DirectOffsets);
    assert direct[|direct|..] == [];
    assert kept + [] == kept && pushed + [] == pushed;
  }

  /** A turn of the scheduling loop on a concealed cell: the cell is
      pushed and removed from the list by its position. */
  lemma ScheduleTurn(g: Grid, c: Cell, k: nat, at: nat, q0: seq<Entry>, queue: seq<Entry>,
                     kept: seq<Cell>, pushed: seq<Entry>, neighbors: seq<Cell>)
    requires Scheduling(g, c, k, at, q0, queue, kept, pushed, neighbors)
    requires k < |Around(g, c.0, c.1, DirectOffsets)|
    requires IsConcealed(TileAt(g, Around(g, c.0, c.1, DirectOffsets)[k]))
    ensures var n := Around(g, c.0, c.1, DirectOffsets)[k];
      && n in neighbors
      && Scheduling(g, c, k + 1, at, q0, queue + [Entry(at, n)], kept, pushed + [Entry(at, n)],
                    neighbors[..IndexOf(neighbors, n)] + neighbors[IndexOf(neighbors, n) + 1..])
  {
    var direct := Around(g, c.0, c.1, DirectOffsets);
    var n := direct[k];
    SuffixStep(g, direct, k, at);
    AppendAssoc(kept, [n], direct[k + 1..]);
    RemoveFirst(kept, n, direct[k + 1..]);
    AppendAssoc(q0, pushed, [Entry(at, n)]);
    AppendAssoc(pushed, [Entry(at, n)], Pushed(g, direct[k + 1..], at));
  }

  /** A turn of the scheduling loop on any other cell: the cell stays. */
  lemma KeepTurn(g: Grid, c: Cell, k: nat, at: nat, q0: seq<Entry>, queue: seq<Entry>,
                 kept: seq<Cell>, pushed: seq<Entry>, neighbors: seq<Cell>)
    requires Scheduling(g, c, k, at, q0, queue, kept, pushed, neighbors)
    requires k < |Around(g, c.0, c.1, DirectOffsets)|
    requires !IsConcealed(TileAt(g, Around(g, c.0, c.1, DirectOffsets)[k]))
    ensures Scheduling(g, c, k + 1, at, q0, queue, kept + [Around(g, c.0, c.1, DirectOffsets)[k]], pushed, neighbors)
  {
    var direct := Around(g, c.0, c.1, DirectOffsets);
    var n := direct[k];
    DirectNeighborsSpec(g, c.0, c.1);
    SuffixStep(g, direct, k, at);
    AppendAssoc(kept, [n], direct[k + 1..]);
    AppendAssoc(kept, [n], Kept(g, direct[k + 1..]));
  }

  lemma AppendAssoc<T>(a: seq<T>, b: seq<T>, c: seq<T>)
    ensures a + b + c == a + (b + c)
  {
  }

  /** Removing a cell by the position of its first occurrence, when it
      does not occur in `a`, leaves exactly `a + b`. */
  lemma {:induction false} RemoveFirst(a: seq<Cell>, n: Cell, b: seq<Cell>)
    requires n !in a
    ensures IndexOf(a + [n] + b, n) == |a|
    ensures (a + [n] + b)[..|a|] + (a + [n] + b)[|a| + 1..] == a + b
  {
    var s := a + [n] + b;
    assert s[..|a|] == a && s[|a| + 1..] == b;
    if a != [] {
      assert s[0] == a[0] && s[1..] == a[1..] + [n] + b;
      RemoveFirst(a[1..], n, b);
    }
  }

  /** The cells a list of redraws updates, in order. */
  function CellsOf(ds: seq<Redraw>): (r: seq<Cell>)
    ensures |r| == |ds|
    ensures forall i :: 0 <= i < |ds| ==> r[i] == ds[i].cell
  {
    if ds == [] then [] else [ds[0].cell] + CellsOf(ds[1..])
  }

  /** The redraws of the refresh list: concealed cells are skipped, every
      other cell gets its sprite from the autotiler. The flag is false when
      the autotiler had no sprite for a cell; the redraws before that cell
      have then already been sent. */
  function Redraws(g: Grid, dict: PatternMap, cells: seq<Cell>): (r: (seq<Redraw>, bool))
    requires forall c :: c in cells ==> InBounds(g, c)
    requires WellFormed(dict)
    ensures |r.0| <= |cells|
  {
    if cells == [] then ([], true)
    else
      var c := cells[0];
      if IsConcealed(TileAt(g, c)) then Redraws(g, dict, cells[1..])
      else match SpriteFor(g, c.0, c.1, dict)
        case None => ([], false)
        case Some(s) =>
          var rest := Redraws(g, dict, cells[1..]);
          ([Redraw(c, s.0, s.1)] + rest.0, rest.1)
  }

  /** Unfolding `Redraws` on a suffix by one cell. */
  lemma RedrawsStep(g: Grid, dict: PatternMap, cells: seq<Cell>, k: nat)
    requires forall c :: c in cells ==> InBounds(g, c)
    requires WellFormed(dict) && k < |cells|
    ensures var c := cells[k];
      Redraws(g, dict, cells[k..]) ==
        if IsConcealed(TileAt(g, c)) then Redraws(g, dict, cells[k + 1..])
        else match SpriteFor(g, c.0, c.1, dict)
          case None => ([], false)
          case Some(s) =>
            ([Redraw(c, s.0, s.1)] + Redraws(g, dict, cells[k + 1..]).0, Redraws(g, dict, cells[k + 1..]).1)
  {
    assert cells[k..][0] == cells[k] && cells[k..][1..] == cells[k + 1..];
  }

  /** The tile storage with the tile of `c` replaced by `t`. */
  function Put(g: Grid, c: Cell, t: Tile): (r: Grid)
    requires InBounds(g, c)
    ensures |r| == |g| && forall i :: 0 <= i < |g| ==> |r[i]| == |g[i]|
  {
    g[c.0 := g[c.0][c.1 := t]]
  }

  /** The cells redrawn after a reveal of `c`: the direct neighbours that
      were not scheduled, then the diagonal neighbours, then `c` itself. */
  function RefreshList(g: Grid, c: Cell): (r: seq<Cell>)
    requires InBounds(g, c)
    ensures forall n :: n in r ==> InBounds(g, n)
  {
    KeptSpec(g, Around(g, c.0, c.1, DirectOffsets));
    Kept(g, Around(g, c.0, c.1, DirectOffsets)) + Around(g, c.0, c.1, DiagonalOffsets) + [c]
  }

  /** The refresh list holds the revealed cell, its direct neighbours that
      are not concealed and all its diagonal neighbours; the revealed cell
      comes last. */
  lemma RefreshListSpec(g: Grid, c: Cell)
    requires InBounds(g, c)
    ensures RefreshList(g, c)[|RefreshList(g, c)| - 1] == c
    ensures forall n :: n in RefreshList(g, c) <==>
      || n == c
      || (InBounds(g, n) && Dist(n.0, c.0) + Dist(n.1, c.1) == 1 && !IsConcealed(TileAt(g, n)))
      || (InBounds(g, n) && Dist(n.0, c.0) == 1 && Dist(n.1, c.1) == 1)
  {
    var direct := Around(g, c.0, c.1, DirectOffsets);
    DirectNeighborsSpec(g, c.0, c.1);
    DiagonalNeighborsSpec(g, c.0, c.1);
    KeptSpec(g, direct);
  }

  /** One iteration of the drain loop on a non-empty queue: pop the
      earliest entry and reveal its cell. If nothing changed, the iteration
      is stale and ends there. Otherwise every concealed direct neighbour
      is pushed at `now` plus the delay and the refresh list is redrawn
      against the updated tiles. */
  function Step(w: World, now: nat, dict: PatternMap): (r: (Turn, World))
    requires ValidWorld(w) && w.queue != [] && WellFormed(dict)
    ensures r.0 == Stale <==> !IsConcealed(TileAt(w.tiles, Earliest(w.queue).cell))
    ensures w.redrawn <= r.1.redrawn
  {
    var e := Earliest(w.queue);
    var rest := Popped(w.queue);
    var (changed, t) := Reveal(TileAt(w.tiles, e.cell));
    if !changed then (Stale, World(w.tiles, rest, w.redrawn))
    else
      var g := Put(w.tiles, e.cell, t);
      var pushed := Pushed(g, Around(g, e.cell.0, e.cell.1, DirectOffsets), now + RevealDelay);
      var (out, ok) := Redraws(g, dict, RefreshList(g, e.cell));
      (if ok then Revealed else Crashed, World(g, rest + pushed, w.redrawn + out))
  }

  /** What a run does: iterate while an entry is due, stopping at the
      first stale iteration or autotiler failure. */
  function RunSpec(w: World, now: nat, dict: PatternMap): (r: (Outcome, World))
    requires ValidWorld(w) && WellFormed(dict)
    ensures ValidWorld(r.1)
    ensures r.0 == Drained ==> !Due(r.1.queue, now)
    decreases DueCount(w.queue, now)
  {
    if !Due(w.queue, now) then (Drained, w)
    else
      StepKeepsValid(w, now, dict);
      StepShrinksDue(w, now, dict);
      var (turn, next) := Step(w, now, dict);
      match turn
      case Stale => (Halted, next)
      case Crashed => (Panicked, next)
      case Revealed => RunSpec(next, now, dict)
  }

  /** Due entries of a concatenation are those of its parts. */
  lemma {:induction false} DueCountAppend(a: seq<Entry>, b: seq<Entry>, now: nat)
    ensures DueCount(a + b, now) == DueCount(a, now) + DueCount(b, now)
  {
    if a == [] {
      assert a + b == b;
    } else {
      assert (a + b)[0] == a[0] && (a + b)[1..] == a[1..] + b;
      DueCountAppend(a[1..], b, now);
    }
  }

  /** Entries later than `now` are not due. */
  lemma {:induction false} DueCountLater(q: seq<Entry>, now: nat)
    requires forall e :: e in q ==> e.time > now
    ensures DueCount(q, now) == 0
  {
    if q != [] {
      assert forall e :: e in q[1..] ==> e in q;
      DueCountLater(q[1..], now);
    }
  }

  /** Popping a due entry removes exactly one due entry. */
  lemma DueCountPopped(q: seq<Entry>, now: nat)
    requires Due(q, now)
    ensures DueCount(Popped(q), now) + 1 == DueCount(q, now)
  {
    var i := MinIndex(q);
    assert q == q[..i] + ([q[i]] + q[i + 1..]);
    DueCountAppend(q[..i], [q[i]] + q[i + 1..], now);
    DueCountAppend([q[i]], q[i + 1..], now);
    DueCountAppend(q[..i], q[i + 1..], now);
  }

  /** An iteration keeps every queued entry on the grid and keeps the
      grid's shape. */
  lemma StepKeepsValid(w: World, now: nat, dict: PatternMap)
    requires ValidWorld(w) && w.queue != [] && WellFormed(dict)
    ensures ValidWorld(Step(w, now, dict).1)
    ensures |Step(w, now, dict).1.tiles| == |w.tiles|
    ensures forall i :: 0 <= i < |w.tiles| ==> |Step(w, now, dict).1.tiles[i]| == |w.tiles[i]|
  {
    var e := Earliest(w.queue);
    var rest := Popped(w.queue);
    forall x | x in rest ensures InBounds(w.tiles, x.cell) {
      assert x in multiset(rest);
    }
    var r := Reveal(TileAt(w.tiles, e.cell));
    if r.0 {
      var g := Put(w.tiles, e.cell, r.1);
      var direct := Around(g, e.cell.0, e.cell.1, DirectOffsets);
      var next := Step(w, now, dict).1;
      assert next.tiles == g && next.queue == rest + Pushed(g, direct, now + RevealDelay);
      PushedSpec(g, direct, now + RevealDelay);
    }
  }

  /** Termination: an iteration consumes one due entry and adds only
      entries that fall due after `now`. */
  lemma StepShrinksDue(w: World, now: nat, dict: PatternMap)
    requires ValidWorld(w) && Due(w.queue, now) && WellFormed(dict)
    ensures DueCount(Step(w, now, dict).1.queue, now) + 1 == DueCount(w.queue, now)
  {
    var e := Earliest(w.queue);
    var rest := Popped(w.queue);
    DueCountPopped(w.queue, now);
    var (changed, t) := Reveal(TileAt(w.tiles, e.cell));
    if changed {
      var g := Put(w.tiles, e.cell, t);
      var pushed := Pushed(g, Around(g, e.cell.0, e.cell.1, DirectOffsets), now + RevealDelay);
      PushedSpec(g, Around(g, e.cell.0, e.cell.1, DirectOffsets), now + RevealDelay);
      DueCountLater(pushed, now);
      DueCountAppend(rest, pushed, now);
    }
  }

  /** A stale iteration: the popped cell had nothing to reveal exactly
      when the iteration is stale, and then the entry is consumed while
      the tiles, the redraws and every other entry stay as they were. */
  lemma StepStale(w: World, now: nat, dict: PatternMap)
    requires ValidWorld(w) && w.queue != [] && WellFormed(dict)
    ensures Step(w, now, dict).0 == Stale <==> !IsConcealed(TileAt(w.tiles, Earliest(w.queue).cell))
    ensures Step(w, now, dict).0 == Stale ==>
      && Step(w, now, dict).1.tiles == w.tiles
      && Step(w, now, dict).1.redrawn == w.redrawn
      && multiset(Step(w, now, dict).1.queue) == multiset(w.queue) - multiset{Earliest(w.queue)}
  {
  }

  /** An iteration that reveals changes the popped cell to revealed ground
      and leaves every other tile as it was. */
  lemma StepRevealsOnlyPopped(w: World, now: nat, dict: PatternMap)
    requires ValidWorld(w) && w.queue != [] && WellFormed(dict)
    requires Step(w, now, dict).0 != Stale
    ensures var e := Earliest(w.queue); var g := Step(w, now, dict).1.tiles;
      && IsConcealed(TileAt(w.tiles, e.cell))
      && |g| == |w.tiles| && (forall i :: 0 <= i < |g| ==> |g[i]| == |w.tiles[i]|)
      && g[e.cell.0][e.cell.1] == Ground(false)
      && forall x, y :: 0 <= x < |g| && 0 <= y < |g[x]| && (x, y) != e.cell ==> g[x][y] == w.tiles[x][y]
  {
  }

  /** The entries pushed for a cell are exactly its concealed direct
      neighbours, each at time `at`. */
  lemma PushedNeighbours(g: Grid, c: Cell, at: nat)
    ensures forall x :: x in Pushed(g, Around(g, c.0, c.1, DirectOffsets), at) <==>
      && x.time == at
      && InBounds(g, x.cell)
      && Dist(x.cell.0, c.0) + Dist(x.cell.1, c.1) == 1
      && IsConcealed(TileAt(g, x.cell))
  {
    PushedSpec(g, Around(g, c.0, c.1, DirectOffsets), at);
    DirectNeighborsSpec(g, c.0, c.1);
  }

  /** An iteration that reveals consumes the popped entry and adds the
      entries pushed for the popped cell's direct neighbours, at `now`
      plus the delay; every other entry stays queued. */
  lemma StepSchedules(w: World, now: nat, dict: PatternMap)
    requires ValidWorld(w) && w.queue != [] && WellFormed(dict)
    requires Step(w, now, dict).0 != Stale
    ensures var e := Earliest(w.queue); var next := Step(w, now, dict).1;
      multiset(next.queue) == multiset(w.queue) - multiset{e} +
        multiset(Pushed(next.tiles, Around(next.tiles, e.cell.0, e.cell.1, DirectOffsets), now + RevealDelay))
  {
  }

  /** Every redraw is for a listed cell that is not concealed and carries
      the autotiler's sprite for it. */
  lemma {:induction false} RedrawsSound(g: Grid, dict: PatternMap, cells: seq<Cell>)
    requires forall c :: c in cells ==> InBounds(g, c)
    requires WellFormed(dict)
    ensures forall d :: d in Redraws(g, dict, cells).0 ==>
      && d.cell in cells && !IsConcealed(TileAt(g, d.cell))
      && SpriteFor(g, d.cell.0, d.cell.1, dict) == Some((d.descriptor, d.rotation))
  {
    if cells != [] {
      var c := cells[0];
      assert forall x :: x in cells[1..] ==> x in cells;
      RedrawsSound(g, dict, cells[1..]);
      var rest := Redraws(g, dict, cells[1..]);
      if !IsConcealed(TileAt(g, c)) && SpriteFor(g, c.0, c.1, dict).Some? {
        var s := SpriteFor(g, c.0, c.1, dict).value;
        assert Redraws(g, dict, cells).0 == [Redraw(c, s.0, s.1)] + rest.0;
      }
    }
  }

  /** A pass that succeeds redraws exactly the cells that are not
      concealed, in list order. */
  lemma {:induction false} RedrawsInOrder(g: Grid, dict: PatternMap, cells: seq<Cell>)
    requires forall c :: c in cells ==> InBounds(g, c)
    requires WellFormed(dict)
    ensures Redraws(g, dict, cells).1 ==> CellsOf(Redraws(g, dict, cells).0) == Kept(g, cells)
  {
    if cells != [] {
      var c := cells[0];
      assert forall x :: x in cells[1..] ==> x in cells;
      RedrawsInOrder(g, dict, cells[1..]);
      var rest := Redraws(g, dict, cells[1..]);
      if !IsConcealed(TileAt(g, c)) && SpriteFor(g, c.0, c.1, dict).Some? && rest.1 {
        var s := SpriteFor(g, c.0, c.1, dict).value;
        var d := Redraw(c, s.0, s.1);
        assert Redraws(g, dict, cells).0 == [d] + rest.0;
        assert CellsOf([d] + rest.0) == [c] + CellsOf(rest.0);
      }
    }
  }

  /** The autotiler has a sprite for every listed cell that is not
      concealed. */
  predicate AllDrawable(g: Grid, dict: PatternMap, cells: seq<Cell>)
    requires forall c :: c in cells ==> InBounds(g, c)
    requires WellFormed(dict)
  {
    forall c :: c in cells && !IsConcealed(TileAt(g, c)) ==> SpriteFor(g, c.0, c.1, dict).Some?
  }

  lemma AllDrawableStep(g: Grid, dict: PatternMap, cells: seq<Cell>)
    requires forall c :: c in cells ==> InBounds(g, c)
    requires WellFormed(dict) && cells != []
    ensures forall c :: c in cells[1..] ==> InBounds(g, c)
    ensures AllDrawable(g, dict, cells) <==>
      && (!IsConcealed(TileAt(g, cells[0])) ==> SpriteFor(g, cells[0].0, cells[0].1, dict).Some?)
      && AllDrawable(g, dict, cells[1..])
  {
    assert forall x :: x in cells <==> x == cells[0] || x in cells[1..];
  }

  /** A pass succeeds exactly when the autotiler has a sprite for every
      listed cell that is not concealed. */
  lemma {:induction false} RedrawsSucceed(g: Grid, dict: PatternMap, cells: seq<Cell>)
    requires forall c :: c in cells ==> InBounds(g, c)
    requires WellFormed(dict)
    ensures Redraws(g, dict, cells).1 <==> AllDrawable(g, dict, cells)
  {
    if cells != [] {
      AllDrawableStep(g, dict, cells);
      RedrawsSucceed(g, dict, cells[1..]);
    }
  }

  /** The three facts about a redraw pass together. */
  lemma RedrawsSpec(g: Grid, dict: PatternMap, cells: seq<Cell>)
    requires forall c :: c in cells ==> InBounds(g, c)
    requires WellFormed(dict)
    ensures forall d :: d in Redraws(g, dict, cells).0 ==>
      && d.cell in cells && !IsConcealed(TileAt(g, d.cell))
      && SpriteFor(g, d.cell.0, d.cell.1, dict) == Some((d.descriptor, d.rotation))
    ensures Redraws(g, dict, cells).1 ==> CellsOf(Redraws(g, dict, cells).0) == Kept(g, cells)
    ensures Redraws(g, dict, cells).1 <==>
      forall c :: c in cells && !IsConcealed(TileAt(g, c)) ==> SpriteFor(g, c.0, c.1, dict).Some?
  {
    RedrawsSound(g, dict, cells);
    RedrawsInOrder(g, dict, cells);
    RedrawsSucceed(g, dict, cells);
  }

  /** Revealing keeps the grid's shape and changes tiles only from
      concealed ground to revealed ground. */
  predicate RevealedFrom(g0: Grid, g: Grid) {
    && |g| == |g0| && (forall i :: 0 <= i < |g0| ==> |g[i]| == |g0[i]|)
    && forall x, y :: 0 <= x < |g0| && 0 <= y < |g0[x]| ==>
      g[x][y] == g0[x][y] || (IsConcealed(g0[x][y]) && g[x][y] == Ground(false))
  }

  lemma RevealedFromTrans(g0: Grid, g1: Grid, g2: Grid)
    requires RevealedFrom(g0, g1) && RevealedFrom(g1, g2)
    ensures RevealedFrom(g0, g2)
  {
  }

  /** One iteration only reveals. */
  lemma StepOnlyReveals(w: World, now: nat, dict: PatternMap)
    requires ValidWorld(w) && w.queue != [] && WellFormed(dict)
    ensures RevealedFrom(w.tiles, Step(w, now, dict).1.tiles)
  {
    if Step(w, now, dict).0 != Stale {
      StepRevealsOnlyPopped(w, now, dict);
    }
  }

  /** A run keeps the grid's shape and only turns concealed ground into
      revealed ground; walls and revealed ground are never touched. */
  lemma {:induction false} RunOnlyReveals(w: World, now: nat, dict: PatternMap)
    requires ValidWorld(w) && WellFormed(dict)
    ensures RevealedFrom(w.tiles, RunSpec(w, now, dict).1.tiles)
    decreases DueCount(w.queue, now)
  {
    if Due(w.queue, now) {
      StepKeepsValid(w, now, dict);
      StepShrinksDue(w, now, dict);
      StepOnlyReveals(w, now, dict);
      var (turn, next) := Step(w, now, dict);
      if turn == Revealed {
        RunOnlyReveals(next, now, dict);
        RevealedFromTrans(w.tiles, next.tiles, RunSpec(next, now, dict).1.tiles);
      }
    }
  }

  /** A run that drains leaves only entries that fall due after `now`. */
  lemma {:induction false} RunDrains(w: World, now: nat, dict: PatternMap)
    requires ValidWorld(w) && WellFormed(dict)
    ensures RunSpec(w, now, dict).0 == Drained ==>
      forall e :: e in RunSpec(w, now, dict).1.queue ==> e.time > now
    decreases DueCount(w.queue, now)
  {
    if !Due(w.queue, now) {
      forall e | e in w.queue ensures e.time > now {
        var j :| 0 <= j < |w.queue| && w.queue[j] == e;
        assert Before(Earliest(w.queue), w.queue[j]);
      }
    } else {
      StepKeepsValid(w, now, dict);
      StepShrinksDue(w, now, dict);
      var (turn, next) := Step(w, now, dict);
      if turn == Revealed {
        RunDrains(next, now, dict);
      }
    }
  }

  /** An iteration consumes only the popped entry: every other entry is
      still queued afterwards. */
  lemma StepKeepsOthers(w: World, now: nat, dict: PatternMap)
    requires ValidWorld(w) && w.queue != [] && WellFormed(dict)
    ensures forall e :: e in w.queue && e != Earliest(w.queue) ==> e in Step(w, now, dict).1.queue
  {
    var rest := Popped(w.queue);
    var next := Step(w, now, dict).1;
    assert next.queue[..|rest|] == rest;
    forall e | e in w.queue && e != Earliest(w.queue) ensures e in next.queue {
      assert e in multiset(rest);
      assert e in next.queue[..|rest|];
    }
  }

  /** Two entries that each come before the other are the same entry. */
  lemma BeforeAntisymmetric(a: Entry, b: Entry)
    requires Before(a, b) && Before(b, a)
    ensures a == b
  {
  }

  /** A second copy of the earliest entry stays earliest once the first
      is popped and only later entries are added. */
  lemma CopyStaysEarliest(q: seq<Entry>, pushed: seq<Entry>, now: nat)
    requires Due(q, now) && multiset(q)[Earliest(q)] >= 2
    requires forall x :: x in pushed ==> x.time > now
    ensures Popped(q) + pushed != []
    ensures Earliest(Popped(q) + pushed) == Earliest(q)
  {
    var e := Earliest(q);
    var rest := Popped(q);
    var next := rest + pushed;
    assert e in multiset(rest);
    assert e in next;
    var m := Earliest(next);
    var j :| 0 <= j < |next| && next[j] == e;
    assert Before(m, e);
    assert m !in pushed;
    assert m in multiset(q);
    var k :| 0 <= k < |q| && q[k] == m;
    assert Before(e, q[k]);
    BeforeAntisymmetric(m, e);
  }

  /** The queue after an iteration that reveals: the popped queue followed
      by the entries pushed for the popped cell's direct neighbours. */
  lemma StepQueue(w: World, now: nat, dict: PatternMap)
    requires ValidWorld(w) && w.queue != [] && WellFormed(dict)
    requires Step(w, now, dict).0 != Stale
    ensures var e := Earliest(w.queue); var g := Step(w, now, dict).1.tiles;
      Step(w, now, dict).1.queue ==
        Popped(w.queue) + Pushed(g, Around(g, e.cell.0, e.cell.1, DirectOffsets), now + RevealDelay)
  {
  }

  /** After an iteration that reveals, a second copy of the popped entry
      is the next entry the heap pops. */
  lemma CopyPoppedNext(w: World, now: nat, dict: PatternMap)
    requires ValidWorld(w) && Due(w.queue, now) && WellFormed(dict)
    requires multiset(w.queue)[Earliest(w.queue)] >= 2
    requires Step(w, now, dict).0 != Stale
    ensures Step(w, now, dict).1.queue != []
    ensures Earliest(Step(w, now, dict).1.queue) == Earliest(w.queue)
  {
    var e := Earliest(w.queue);
    var g := Step(w, now, dict).1.tiles;
    var direct := Around(g, e.cell.0, e.cell.1, DirectOffsets);
    StepQueue(w, now, dict);
    PushedSpec(g, direct, now + RevealDelay);
    CopyStaysEarliest(w.queue, Pushed(g, direct, now + RevealDelay), now);
  }

  /** A consequence of the `break` on a stale entry: when the earliest due
      entry is queued twice, the run cannot drain. Either it stops on that
      cell at once, or it reveals the cell and then stops on the second
      copy. Every other entry, due or not, is then still queued. */
  lemma DuplicateEntryHalts(w: World, now: nat, dict: PatternMap)
    requires ValidWorld(w) && Due(w.queue, now) && WellFormed(dict)
    requires multiset(w.queue)[Earliest(w.queue)] >= 2
    ensures RunSpec(w, now, dict).0 != Drained
    ensures RunSpec(w, now, dict).0 == Halted ==>
      forall e :: e in w.queue && e != Earliest(w.queue) ==> e in RunSpec(w, now, dict).1.queue
  {
    StepKeepsValid(w, now, dict);
    StepKeepsOthers(w, now, dict);
    var (turn, next) := Step(w, now, dict);
    if turn == Revealed {
      CopyPoppedNext(w, now, dict);
      StepRevealsOnlyPopped(w, now, dict);
      StepKeepsOthers(next, now, dict);
      assert Step(next, now, dict).0 == Stale;
      assert RunSpec(w, now, dict) == RunSpec(next, now, dict);
    }
  }

  /** Entries that are not yet due survive a run, whatever it ends with. */
  lemma {:induction false} RunKeepsFuture(w: World, now: nat, dict: PatternMap)
    requires ValidWorld(w) && WellFormed(dict)
    ensures forall e :: e in w.queue && e.time > now ==> e in RunSpec(w, now, dict).1.queue
    decreases DueCount(w.queue, now)
  {
    if Due(w.queue, now) {
      StepKeepsValid(w, now, dict);
      StepShrinksDue(w, now, dict);
      StepKeepsOthers(w, now, dict);
      var (turn, next) := Step(w, now, dict);
      if turn == Revealed {
        RunKeepsFuture(next, now, dict);
      }
    }
  }

  /** A run only appends to the redraws already sent. */
  lemma {:induction false} RunExtendsRedrawn(w: World, now: nat, dict: PatternMap)
    requires ValidWorld(w) && WellFormed(dict)
    ensures w.redrawn <= RunSpec(w, now, dict).1.redrawn
    decreases DueCount(w.queue, now)
  {
    if Due(w.queue, now) {
      StepKeepsValid(w, now, dict);
      StepShrinksDue(w, now, dict);
      var (turn, next) := Step(w, now, dict);
      if turn == Revealed {
        RunExtendsRedrawn(next, now, dict);
      }
    }
  }

  /** The scheduling part of an iteration: the direct neighbours of `c`
      are collected, and every concealed one is pushed at `now` plus the
      delay and removed, by position, from the list that is returned. */
  method ScheduleNeighbours(g: Grid, c: Cell, q0: seq<Entry>, now: nat)
    returns (queue: seq<Entry>, neighbors: seq<Cell>)
    ensures queue == q0 + Pushed(g, Around(g, c.0, c.1, DirectOffsets), now + RevealDelay)
    ensures neighbors == Kept(g, Around(g, c.0, c.1, DirectOffsets))
  {
    var at := now + RevealDelay;
    queue := q0;
    neighbors := DirectNeighbors(g, c.0, c.1);
    var direct := neighbors;
    ghost var kept: seq<Cell> := [];
    ghost var pushed: seq<Entry> := [];
    SchedulingStarts(g, c, at, q0);
    for k := 0 to |direct|
      invariant direct == Around(g, c.0, c.1, DirectOffsets)
      invariant Scheduling(g, c, k, at, q0, queue, kept, pushed, neighbors)
    {
      var n := direct[k];
      assert n in direct;
      if g[n.0][n.1] == Ground(true) {
        ScheduleTurn(g, c, k, at, q0, queue, kept, pushed, neighbors);
        queue := queue + [Entry(at, n)];
        pushed := pushed + [Entry(at, n)];
        var pos := IndexOf(neighbors, n);
        neighbors := neighbors[..pos] + neighbors[pos + 1..];
      } else {
        KeepTurn(g, c, k, at, q0, queue, kept, pushed, neighbors);
        kept := kept + [n];
      }
    }
    SchedulingEnds(g, c, at, q0, queue, kept, pushed, neighbors);
  }

  /** The redraw loop: every cell of `cells` that is not concealed gets
      its sprite from the autotiler and is sent to rendering, until the
      autotiler has no sprite for a cell. */
  method RedrawAll(g: Grid, dict: PatternMap, cells: seq<Cell>) returns (out: seq<Redraw>, ok: bool)
    requires forall c :: c in cells ==> InBounds(g, c)
    requires WellFormed(dict)
    ensures (out, ok) == Redraws(g, dict, cells)
  {
    out := [];
    assert cells[0..] == cells;
    for k := 0 to |cells|
      invariant Redraws(g, dict, cells).0 == out + Redraws(g, dict, cells[k..]).0
      invariant Redraws(g, dict, cells).1 == Redraws(g, dict, cells[k..]).1
    {
      var n := cells[k];
      assert n in cells;
      RedrawsStep(g, dict, cells, k);
      if g[n.0][n.1] != Ground(true) {
        var sprite := DetermineSpriteFor(g, n.0, n.1, dict);
        if sprite.None? {
          assert out + [] == out;
          return out, false;
        }
        out := out + [Redraw(n, sprite.value.0, sprite.value.1)];
      }
    }
    assert cells[|cells|..] == [] && out + [] == out;
    ok := true;
  }

  /** The reveal system's mutable state: the tile storage, the reveal
      queue and the redraws sent to rendering so far. */
  class RevealSystem {
    var tiles: Grid
    var queue: seq<Entry>
    var redrawn: seq<Redraw>

    function State(): World
      reads this
    {
      World(tiles, queue, redrawn)
    }

    predicate Valid()
      reads this
    {
      ValidWorld(State())
    }

    /** A level starts with an empty queue and nothing redrawn. */
    constructor (g: Grid)
      ensures tiles == g && queue == [] && redrawn == []
      ensures Valid()
    {
      tiles := g;
      queue := [];
      redrawn := [];
    }

    /** Seeds the cascade: pushes an entry for a tile of the grid, as the
        level start does for the base's cell. */
    method Schedule(c: Cell, at: nat)
      requires Valid() && InBounds(tiles, c)
      modifies this
      ensures Valid()
      ensures queue == old(queue) + [Entry(at, c)]
      ensures tiles == old(tiles) && redrawn == old(redrawn)
    {
      queue := queue + [Entry(at, c)];
    }

    /** `run`: while the queue is not empty and its earliest entry is due,
        handle that entry; a stale entry breaks out of the loop and an
        autotiler failure ends the run as the source's panic does. */
    method Run(now: nat, dict: PatternMap) returns (outcome: Outcome)
      requires Valid() && WellFormed(dict)
      modifies this
      ensures Valid()
      ensures (outcome, State()) == RunSpec(old(State()), now, dict)
    {
      outcome := Drained;
      while queue != [] && Earliest(queue).time <= now
        invariant Valid()
        invariant RunSpec(old(State()), now, dict) == RunSpec(State(), now, dict)
        decreases DueCount(queue, now)
      {
        ghost var before := State();
        StepKeepsValid(before, now, dict);
        StepShrinksDue(before, now, dict);
        var turn := RevealNext(now, dict);
        if turn == Stale {
          outcome := Halted;
          break;
        }
        if turn == Crashed {
          return Panicked;
        }
      }
    }

    /** One iteration of `run`'s loop: pop the earliest entry, reveal its
        cell, schedule the concealed direct neighbours, then redraw the
        refresh list. */
    method RevealNext(now: nat, dict: PatternMap) returns (turn: Turn)
      requires Valid() && queue != [] && WellFormed(dict)
      modifies this
      ensures (turn, State()) == Step(old(State()), now, dict)
    {
      var e := Earliest(queue);
      queue := Popped(queue);
      var (changed, t) := Reveal(tiles[e.cell.0][e.cell.1]);
      if !changed {
        return Stale;
      }
      tiles := Put(tiles, e.cell, t);
      var x, y := e.cell.0, e.cell.1;
      var neighbors;
      queue, neighbors := ScheduleNeighbours(tiles, e.cell, queue, now);
      var diagonal := DiagonalNeighbors(tiles, x, y);
      neighbors := neighbors + diagonal;
      neighbors := neighbors + [e.cell];
      assert neighbors == RefreshList(tiles, e.cell);
      var out, ok := RedrawAll(tiles, dict, neighbors);
      redrawn := redrawn + out;
      turn := if ok then Revealed else Crashed;
    }
  }
}
