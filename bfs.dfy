/** Breadth-first search over cells, generic in the successor function:
    the search the grid's path finding delegates to. It expands the cells
    layer by layer, in the order the successor function lists them, and
    records for every cell it visits the path by which it first reached
    it. */
module Bfs {
  import opened Wrappers
  import opened LevelGrid

  /** One move of a path: to a successor of the current cell. */
  predicate Step(succ: Cell -> seq<Cell>, a: Cell, b: Cell) {
    b in succ(a)
  }

  /** `p` leads from `s` to `d`, each cell a successor of the one before. */
  predicate IsPath(succ: Cell -> seq<Cell>, p: seq<Cell>, s: Cell, d: Cell) {
    && |p| > 0 && p[0] == s && p[|p| - 1] == d
    && forall i :: 0 <= i < |p| - 1 ==> Step(succ, p[i], p[i + 1])
  }

  /** The cells one move away from some cell of `S`. */
  function Image(succ: Cell -> seq<Cell>, S: set<Cell>): set<Cell> {
    set c, n | c in S && n in succ(c) :: n
  }

  /** The cells reachable from `s` in at most `k` moves. */
  function Reach(succ: Cell -> seq<Cell>, s: Cell, k: nat): set<Cell> {
    if k == 0 then {s}
    else Reach(succ, s, k - 1) + Image(succ, Reach(succ, s, k - 1))
  }

  /** The cells at distance exactly `k` from `s`. */
  function Layer(succ: Cell -> seq<Cell>, s: Cell, k: nat): set<Cell> {
    if k == 0 then {s} else Reach(succ, s, k) - Reach(succ, s, k - 1)
  }

  lemma LayerInReach(succ: Cell -> seq<Cell>, s: Cell, k: nat)
    ensures Layer(succ, s, k) <= Reach(succ, s, k)
  {
  }

  lemma {:induction false} ReachMonotone(succ: Cell -> seq<Cell>, s: Cell, j: nat, k: nat)
    requires j <= k
    ensures Reach(succ, s, j) <= Reach(succ, s, k)
  {
    if j < k {
      ReachMonotone(succ, s, j, k - 1);
      ReachStep(succ, s, k);
    }
  }

  lemma ReachStep(succ: Cell -> seq<Cell>, s: Cell, k: nat)
    requires k > 0
    ensures Reach(succ, s, k - 1) <= Reach(succ, s, k)
  {
  }

  /** No move leads out of `R`. */
  ghost predicate Closed(succ: Cell -> seq<Cell>, R: set<Cell>) {
    forall c, n :: c in R && n in succ(c) ==> n in R
  }

  /** Starting inside a closed set of cells, the search stays inside it. */
  lemma {:induction false} ReachInClosed(succ: Cell -> seq<Cell>, universe: set<Cell>, s: Cell, k: nat)
    requires s in universe && Closed(succ, universe)
    ensures Reach(succ, s, k) <= universe
  {
    if k > 0 {
      ReachInClosed(succ, universe, s, k - 1);
      forall n | n in Image(succ, Reach(succ, s, k - 1)) ensures n in universe {
        var c :| c in Reach(succ, s, k - 1) && n in succ(c);
      }
    }
  }

  /** The last cell of a path of `|p| - 1` moves is reachable in that many. */
  lemma {:induction false} PathEndReached(succ: Cell -> seq<Cell>, p: seq<Cell>, s: Cell, d: Cell)
    requires IsPath(succ, p, s, d)
    ensures d in Reach(succ, s, |p| - 1)
  {
    if |p| > 1 {
      var q := p[..|p| - 1];
      assert Step(succ, q[|q| - 1], d);
      assert IsPath(succ, q, s, q[|q| - 1]);
      PathEndReached(succ, q, s, q[|q| - 1]);
    }
  }

  /** Moves out of the cells within distance `k` land within distance `k`
      or come from the cells at distance exactly `k`. */
  lemma SuccOfReach(succ: Cell -> seq<Cell>, s: Cell, k: nat)
    ensures Image(succ, Reach(succ, s, k)) <= Reach(succ, s, k) + Image(succ, Layer(succ, s, k))
  {
    forall n | n in Image(succ, Reach(succ, s, k)) ensures n in Reach(succ, s, k) + Image(succ, Layer(succ, s, k)) {
      var c :| c in Reach(succ, s, k) && n in succ(c);
      if c !in Layer(succ, s, k) {
        assert c in Reach(succ, s, k - 1);
      }
    }
  }

  lemma {:induction false} SubsetSize<T>(A: set<T>, B: set<T>)
    requires A <= B
    ensures |A| <= |B|
    decreases A
  {
    if A != {} {
      var x :| x in A;
      SubsetSize(A - {x}, B - {x});
    }
  }

  lemma SmallerSet<T>(A: set<T>, B: set<T>, x: T)
    requires A <= B && x in B && x !in A
    ensures |A| < |B|
  {
    SubsetSize(A, B - {x});
  }

  /** Every visited cell has a recorded path to it from `s`. */
  ghost predicate PathsOk(succ: Cell -> seq<Cell>, s: Cell, visited: set<Cell>, paths: map<Cell, seq<Cell>>) {
    forall c :: c in visited ==> c in paths && IsPath(succ, paths[c], s, c)
  }

  /** Every cell of `cells` has a recorded path of `len` cells. */
  ghost predicate LengthsAre(paths: map<Cell, seq<Cell>>, cells: seq<Cell>, len: nat) {
    forall c :: c in cells ==> c in paths && |paths[c]| == len
  }

  lemma ExtendPaths(succ: Cell -> seq<Cell>, s: Cell, visited: set<Cell>, paths: map<Cell, seq<Cell>>, pc: seq<Cell>, c: Cell, n: Cell)
    requires PathsOk(succ, s, visited, paths) && IsPath(succ, pc, s, c) && Step(succ, c, n)
    ensures IsPath(succ, pc + [n], s, n)
    ensures PathsOk(succ, s, visited + {n}, paths[n := pc + [n]])
  {
    var p := pc + [n];
    forall i | 0 <= i < |p| - 1 ensures Step(succ, p[i], p[i + 1]) {
      if i < |p| - 2 {
        assert p[i] == pc[i] && p[i + 1] == pc[i + 1];
      }
    }
  }

  /** Every successor of `c` has been visited. */
  ghost predicate Expanded(succ: Cell -> seq<Cell>, c: Cell, visited: set<Cell>) {
    forall n :: n in succ(c) ==> n in visited
  }

  /** Every cell of `cells` has been expanded. */
  ghost predicate AllExpanded(succ: Cell -> seq<Cell>, cells: seq<Cell>, visited: set<Cell>) {
    forall i :: 0 <= i < |cells| ==> Expanded(succ, cells[i], visited)
  }

  lemma ExpandedGrows(succ: Cell -> seq<Cell>, cells: seq<Cell>, visited: set<Cell>, visited': set<Cell>)
    requires AllExpanded(succ, cells, visited) && visited <= visited'
    ensures AllExpanded(succ, cells, visited')
  {
    forall i | 0 <= i < |cells| ensures Expanded(succ, cells[i], visited') {
      assert Expanded(succ, cells[i], visited);
    }
  }

  /** A move out of the cells within distance `k` stays within `k + 1`. */
  lemma StepStaysInReach(succ: Cell -> seq<Cell>, s: Cell, k: nat, c: Cell)
    requires c in Reach(succ, s, k)
    ensures Expanded(succ, c, Reach(succ, s, k + 1))
  {
    forall n | n in succ(c) ensures n in Reach(succ, s, k + 1) {
      assert n in Image(succ, Reach(succ, s, k));
    }
  }

  /** Visiting every successor of the cells at distance `k` completes the
      cells within distance `k + 1`. */
  lemma LayerComplete(succ: Cell -> seq<Cell>, s: Cell, k: nat, visited: set<Cell>, frontier: seq<Cell>)
    requires Reach(succ, s, k) <= visited <= Reach(succ, s, k + 1)
    requires forall c :: c in Layer(succ, s, k) ==> c in frontier
    requires AllExpanded(succ, frontier, visited)
    ensures visited == Reach(succ, s, k + 1)
  {
    SuccOfReach(succ, s, k);
    forall n | n in Image(succ, Layer(succ, s, k)) ensures n in visited {
      var c :| c in Layer(succ, s, k) && n in succ(c);
      var i :| 0 <= i < |frontier| && frontier[i] == c;
      assert Expanded(succ, frontier[i], visited);
    }
  }

  /** The state part-way through expanding the layer at distance `depth`:
      the visited cells lie between `before` (those within distance
      `depth`) and `bound` (those within `depth + 1`), the new ones are
      exactly `next`, each with a recorded path of `depth + 2` cells, and
      the destination is not yet among them. */
  ghost predicate Partial(succ: Cell -> seq<Cell>, s: Cell, destination: Cell, depth: nat, before: set<Cell>, bound: set<Cell>,
                          visited: set<Cell>, paths: map<Cell, seq<Cell>>, next: seq<Cell>) {
    && before <= visited <= bound
    && (forall n :: n in next <==> n in visited && n !in before)
    && PathsOk(succ, s, visited, paths) && LengthsAre(paths, next, depth + 2)
    && destination !in visited
  }

  /** Expands one cell of the current layer, reached by the path `pc`:
      visits its successors in order, recording for each new one `pc`
      extended by it, and stops with that path as soon as the new cell is
      the destination. */
  method ExpandCell(succ: Cell -> seq<Cell>, ghost s: Cell, destination: Cell, ghost depth: nat, ghost before: set<Cell>, ghost bound: set<Cell>,
                    c: Cell, pc: seq<Cell>, visited: set<Cell>, paths: map<Cell, seq<Cell>>, next: seq<Cell>)
    returns (visited': set<Cell>, paths': map<Cell, seq<Cell>>, next': seq<Cell>, found: Option<seq<Cell>>)
    requires Expanded(succ, c, bound) && IsPath(succ, pc, s, c) && |pc| == depth + 1
    requires Partial(succ, s, destination, depth, before, bound, visited, paths, next)
    ensures found.Some? ==> IsPath(succ, found.value, s, destination) && |found.value| == depth + 2
    ensures found.None? ==> visited <= visited' && Expanded(succ, c, visited')
    ensures found.None? ==> Partial(succ, s, destination, depth, before, bound, visited', paths', next')
  {
    visited', paths', next', found := visited, paths, next, None;
    var moves := succ(c);
    for j := 0 to |moves|
      invariant visited <= visited'
      invariant forall k :: 0 <= k < j ==> moves[k] in visited'
      invariant Partial(succ, s, destination, depth, before, bound, visited', paths', next')
    {
      var n := moves[j];
      if n !in visited' {
        var p := pc + [n];
        ExtendPaths(succ, s, visited', paths', pc, c, n);
        visited' := visited' + {n};
        paths' := paths'[n := p];
        next' := next' + [n];
        if n == destination {
          return visited', paths', next', Some(p);
        }
      }
    }
  }

  /** Expands a whole layer, the cells at distance `depth` in frontier
      order, each reached by its recorded path. Either the destination
      turns up, at distance `depth + 1`, or every frontier cell has been
      expanded. */
  method ExpandLayer(succ: Cell -> seq<Cell>, ghost s: Cell, destination: Cell, ghost depth: nat, ghost bound: set<Cell>,
                     frontier: seq<Cell>, visited: set<Cell>, paths: map<Cell, seq<Cell>>)
    returns (visited': set<Cell>, paths': map<Cell, seq<Cell>>, next: seq<Cell>, found: Option<seq<Cell>>)
    requires forall c :: c in frontier ==> c in visited
    requires visited <= bound && AllExpanded(succ, frontier, bound)
    requires PathsOk(succ, s, visited, paths) && LengthsAre(paths, frontier, depth + 1)
    requires destination !in visited
    ensures found.Some? ==> IsPath(succ, found.value, s, destination) && |found.value| == depth + 2
    ensures found.None? ==> AllExpanded(succ, frontier, visited')
    ensures found.None? ==> Partial(succ, s, destination, depth, visited, bound, visited', paths', next)
  {
    visited', paths', next, found := visited, paths, [], None;
    for i := 0 to |frontier|
      invariant AllExpanded(succ, frontier[..i], visited')
      invariant Partial(succ, s, destination, depth, visited, bound, visited', paths', next)
      invariant found.None?
    {
      ghost var old' := visited';
      var c := frontier[i];
      var pc := paths[c];
      assert IsPath(succ, pc, s, c) && |pc| == depth + 1 && Expanded(succ, c, bound);
      visited', paths', next, found := ExpandCell(succ, s, destination, depth, visited, bound, c, pc, visited', paths', next);
      if found.Some? {
        return;
      }
      ExpandedGrows(succ, frontier[..i], old', visited');
      assert frontier[..i + 1] == frontier[..i] + [c];
    }
    assert frontier[..|frontier|] == frontier;
  }

  /** The cells at distance `k` all lead within distance `k + 1`. */
  lemma FrontierBounded(succ: Cell -> seq<Cell>, s: Cell, k: nat, frontier: seq<Cell>)
    requires forall c :: c in frontier ==> c in Layer(succ, s, k)
    ensures forall c :: c in frontier ==> c in Reach(succ, s, k)
    ensures AllExpanded(succ, frontier, Reach(succ, s, k + 1))
  {
    LayerInReach(succ, s, k);
    forall i | 0 <= i < |frontier| ensures Expanded(succ, frontier[i], Reach(succ, s, k + 1)) {
      StepStaysInReach(succ, s, k, frontier[i]);
    }
  }

  /** Once the whole layer at distance `k` has been expanded, the visited
      cells are those within distance `k + 1` and the new ones those at
      distance exactly `k + 1`. */
  lemma LayerDone(succ: Cell -> seq<Cell>, s: Cell, k: nat, frontier: seq<Cell>, visited: set<Cell>, next: seq<Cell>)
    requires Reach(succ, s, k) <= visited <= Reach(succ, s, k + 1)
    requires forall c :: c in frontier <==> c in Layer(succ, s, k)
    requires AllExpanded(succ, frontier, visited)
    requires forall n :: n in next <==> n in visited && n !in Reach(succ, s, k)
    ensures visited == Reach(succ, s, k + 1)
    ensures forall c :: c in next <==> c in Layer(succ, s, k + 1)
  {
    LayerComplete(succ, s, k, visited, frontier);
  }

  /** A path of `k + 2` cells to a cell not within distance `k` is as
      short as any. */
  lemma FoundShortest(succ: Cell -> seq<Cell>, s: Cell, d: Cell, k: nat, p: seq<Cell>)
    requires d !in Reach(succ, s, k) && |p| == k + 2
    ensures forall q :: IsPath(succ, q, s, d) ==> |p| <= |q|
  {
    forall q | IsPath(succ, q, s, d) ensures |p| <= |q| {
      PathEndReached(succ, q, s, d);
      if |q| - 1 <= k {
        ReachMonotone(succ, s, |q| - 1, k);
      }
    }
  }

  /** A path that starts in a closed set of cells stays in it. */
  lemma {:induction false} PathInClosed(succ: Cell -> seq<Cell>, p: seq<Cell>, s: Cell, d: Cell, R: set<Cell>)
    requires IsPath(succ, p, s, d) && s in R && Closed(succ, R)
    ensures d in R
  {
    if |p| > 1 {
      var q := p[..|p| - 1];
      assert Step(succ, q[|q| - 1], d);
      assert IsPath(succ, q, s, q[|q| - 1]);
      PathInClosed(succ, q, s, q[|q| - 1], R);
    }
  }

  /** Once the layer at distance `k` is empty, no move leads further. */
  lemma EmptyLayerClosed(succ: Cell -> seq<Cell>, s: Cell, k: nat)
    requires Layer(succ, s, k) == {}
    ensures Closed(succ, Reach(succ, s, k))
  {
    SuccOfReach(succ, s, k);
    assert Image(succ, Layer(succ, s, k)) == {};
    forall c, n | c in Reach(succ, s, k) && n in succ(c) ensures n in Reach(succ, s, k) {
      assert n in Image(succ, Reach(succ, s, k));
    }
  }

  /** With the layer at distance `k` empty, a cell not within distance `k`
      cannot be reached at all. */
  lemma NoPath(succ: Cell -> seq<Cell>, s: Cell, d: Cell, k: nat, frontier: seq<Cell>)
    requires frontier == [] && (forall c :: c in frontier <==> c in Layer(succ, s, k))
    requires d !in Reach(succ, s, k)
    ensures forall p :: !IsPath(succ, p, s, d)
  {
    assert Layer(succ, s, k) == {};
    EmptyLayerClosed(succ, s, k);
    ReachMonotone(succ, s, 0, k);
    forall p | IsPath(succ, p, s, d) ensures false {
      PathInClosed(succ, p, s, d, Reach(succ, s, k));
    }
  }

  /** Each layer leaves no more cells of `universe` unvisited, and a
      non-empty one fewer. */
  lemma LayerShrinks(succ: Cell -> seq<Cell>, universe: set<Cell>, s: Cell, k: nat, next: seq<Cell>)
    requires s in universe && Closed(succ, universe)
    requires forall c :: c in next <==> c in Layer(succ, s, k + 1)
    ensures |universe - Reach(succ, s, k + 1)| <= |universe - Reach(succ, s, k)|
    ensures next != [] ==> |universe - Reach(succ, s, k + 1)| < |universe - Reach(succ, s, k)|
  {
    ReachInClosed(succ, universe, s, k + 1);
    ReachMonotone(succ, s, k, k + 1);
    if next != [] {
      assert next[0] in next;
      SmallerSet(universe - Reach(succ, s, k + 1), universe - Reach(succ, s, k), next[0]);
    } else {
      forall c | c in Reach(succ, s, k + 1) ensures c in Reach(succ, s, k) {
        assert c !in next;
      }
      assert Reach(succ, s, k + 1) == Reach(succ, s, k);
    }
  }

  /** The state of the search once every cell within distance `k` of `s`
      has been visited: `frontier` holds the cells at distance exactly `k`,
      each visited cell has a recorded path, and `d` has not turned up. */
  ghost predicate Searched(succ: Cell -> seq<Cell>, s: Cell, d: Cell, k: nat, visited: set<Cell>,
                           frontier: seq<Cell>, paths: map<Cell, seq<Cell>>) {
    && visited == Reach(succ, s, k)
    && (forall c :: c in frontier <==> c in Layer(succ, s, k))
    && d !in visited
    && PathsOk(succ, s, visited, paths) && LengthsAre(paths, frontier, k + 1)
  }

  /** The number of cells of `universe` not yet visited. */
  ghost function Unvisited(universe: set<Cell>, visited: set<Cell>): nat {
    |universe - visited|
  }

  /** The search starts with `start` alone visited, at distance 0. */
  lemma SearchStart(succ: Cell -> seq<Cell>, start: Cell, destination: Cell)
    requires start != destination
    ensures Searched(succ, start, destination, 0, {start}, [start], map[start := [start]])
  {
  }

  /** Expanding the whole frontier without meeting the destination moves
      the search one layer out. */
  lemma LayerAdvance(succ: Cell -> seq<Cell>, s: Cell, d: Cell, k: nat, frontier: seq<Cell>, visited: set<Cell>,
                     paths: map<Cell, seq<Cell>>, visited': set<Cell>, paths': map<Cell, seq<Cell>>, next: seq<Cell>)
    requires Searched(succ, s, d, k, visited, frontier, paths)
    requires AllExpanded(succ, frontier, visited')
    requires Partial(succ, s, d, k, visited, Reach(succ, s, k + 1), visited', paths', next)
    ensures Searched(succ, s, d, k + 1, visited', next, paths')
  {
    LayerDone(succ, s, k, frontier, visited', next);
  }

  /** Moving one layer out leaves no more cells unvisited, and fewer
      unless the new layer is empty. */
  lemma LayerProgress(succ: Cell -> seq<Cell>, universe: set<Cell>, s: Cell, k: nat,
                       visited: set<Cell>, visited': set<Cell>, next: seq<Cell>)
    requires s in universe && Closed(succ, universe)
    requires visited == Reach(succ, s, k) && visited' == Reach(succ, s, k + 1)
    requires forall c :: c in next <==> c in Layer(succ, s, k + 1)
    ensures Unvisited(universe, visited') <= Unvisited(universe, visited)
    ensures next != [] ==> Unvisited(universe, visited') < Unvisited(universe, visited)
  {
    LayerShrinks(succ, universe, s, k, next);
  }

  /** One round of the search: expands the frontier. Either a shortest
      path turns up, or the search state moves one layer out, leaving no
      more cells unvisited, and fewer unless the new frontier is empty. */
  method SearchLayer(succ: Cell -> seq<Cell>, ghost universe: set<Cell>, ghost s: Cell, destination: Cell, ghost k: nat,
                     frontier: seq<Cell>, visited: set<Cell>, paths: map<Cell, seq<Cell>>)
    returns (visited': set<Cell>, paths': map<Cell, seq<Cell>>, next: seq<Cell>, found: Option<seq<Cell>>)
    requires s in universe && Closed(succ, universe)
    requires Searched(succ, s, destination, k, visited, frontier, paths)
    ensures found.Some? ==> IsPath(succ, found.value, s, destination)
    ensures found.Some? ==> forall q :: IsPath(succ, q, s, destination) ==> |found.value| <= |q|
    ensures found.None? ==> Searched(succ, s, destination, k + 1, visited', next, paths')
    ensures found.None? ==> Unvisited(universe, visited') <= Unvisited(universe, visited)
    ensures found.None? && next != [] ==> Unvisited(universe, visited') < Unvisited(universe, visited)
    ensures found.None? && next == [] ==> forall q :: !IsPath(succ, q, s, destination)
  {
    FrontierBounded(succ, s, k, frontier);
    ReachMonotone(succ, s, k, k + 1);
    visited', paths', next, found := ExpandLayer(succ, s, destination, k, Reach(succ, s, k + 1), frontier, visited, paths);
    if found.Some? {
      FoundShortest(succ, s, destination, k, found.value);
      return;
    }
    LayerAdvance(succ, s, destination, k, frontier, visited, paths, visited', paths', next);
    LayerProgress(succ, universe, s, k, visited, visited', next);
    if next == [] {
      NoPath(succ, s, destination, k + 1, next);
    }
  }


  /** Breadth-first search from `start` for `destination`, every cell
      reachable from `start` lying in the finite set `universe`. A returned
      path leads from `start` to `destination` and is as short as any such
      path; `None` means there is none. */
  method Search(succ: Cell -> seq<Cell>, ghost universe: set<Cell>, start: Cell, destination: Cell)
    returns (r: Option<seq<Cell>>)
    requires start in universe && Closed(succ, universe)
    ensures r.Some? ==> IsPath(succ, r.value, start, destination)
    ensures r.Some? ==> forall p :: IsPath(succ, p, start, destination) ==> |r.value| <= |p|
    ensures r.None? ==> forall p :: !IsPath(succ, p, start, destination)
  {
    if start == destination {
      return Some([start]);
    }
    var visited: set<Cell> := {start};
    var paths: map<Cell, seq<Cell>> := map[start := [start]];
    var frontier: seq<Cell> := [start];
    ghost var depth: nat := 0;
    SearchStart(succ, start, destination);
    while frontier != []
      invariant Searched(succ, start, destination, depth, visited, frontier, paths)
      invariant frontier == [] ==> forall p :: !IsPath(succ, p, start, destination)
      decreases Unvisited(universe, visited), |frontier|
    {
      var next, found;
      visited, paths, next, found := SearchLayer(succ, universe, start, destination, depth, frontier, visited, paths);
      if found.Some? {
        return found;
      }
      frontier := next;
      depth := depth + 1;
    }
    return None;
  }
}
