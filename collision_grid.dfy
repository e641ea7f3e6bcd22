/**
 * The uniform collision grid of include/CollisionGrid.hpp. Each cell holds
 * pointers to the particles whose position truncates into it; here a
 * pointer is the particle's index in the particle vector. Rebuilding the
 * grid empties every cell and refills the cells in particle order; the
 * neighbour scan then hands every pair of distinct particles in the same or
 * adjacent cells to Solver::resolve_collision.
 */
module CollisionGrid {
  import opened Vectors
  import opened Particles
  import opened Grid
  import opened Collision
  import Solver
  import Config

  /** cellSize = Config::particleSize */
  const CellSize: int := Config.ParticleSize
  /** nColumns = windowWidth / cellSize, integer division (GridSize states it) */
  const NColumns: int := 960
  /** nRows = windowHeight / cellSize, integer division */
  const NRows: int := 540

  lemma GridSize()
    ensures NColumns == Config.WindowWidth / CellSize && NRows == Config.WindowHeight / CellSize
  {
  }

  /** The (column, row) a position truncates into. */
  function CellOf(p: Vec2): (int, int) {
    (CellIndex(p.x, CellSize), CellIndex(p.y, CellSize))
  }

  /** Whether the assignment keeps a particle at p: both indices are inside the grid. */
  predicate Placed(p: Vec2) {
    InBounds(CellOf(p).0, CellOf(p).1, NColumns, NRows)
  }

  /**
   * The indices below n of the particles in cell (col, row), in particle
   * order: the contents of that cell after the first n particles are assigned.
   */
  function Bucket(s: seq<ParticleState>, n: nat, col: int, row: int): seq<nat>
    requires n <= |s|
  {
    if n == 0 then []
    else
      var kept := Placed(s[n - 1].position) && CellOf(s[n - 1].position) == (col, row);
      Bucket(s, n - 1, col, row) + (if kept then [n - 1] else [])
  }

  /** The grid every rebuild produces for the given particle states. */
  predicate IsAssignment(cells: seq<seq<seq<nat>>>, s: seq<ParticleState>)
  {
    Shaped(cells) &&
    (forall c, r :: 0 <= c < NColumns && 0 <= r < NRows ==> cells[c][r] == Bucket(s, |s|, c, r))
  }

  class CollisionGrid {
    /** cells[col][row]: the indices of the particles in that cell. */
    var cells: seq<seq<seq<nat>>>

    /** The grid has nColumns columns of nRows cells each. */
    predicate Valid()
      reads this
    {
      Shaped(cells)
    }

    /** initialize(): nColumns columns of nRows empty cells. */
    constructor()
      ensures Valid()
      ensures forall c, r :: 0 <= c < NColumns && 0 <= r < NRows ==> cells[c][r] == []
    {
      cells := seq(NColumns, _ => seq(NRows, _ => []));
    }

    /**
     * assignParticlesToGrid: empties every cell, then appends the index of
     * each particle whose truncated cell lies inside the grid.
     */
    method AssignParticlesToGrid(particles: seq<Particle>)
      requires Valid()
      modifies this
      ensures Valid()
      ensures IsAssignment(cells, StatesOf(particles))
    {
      ghost var s := StatesOf(particles);
      for col := 0 to NColumns
        invariant Valid()
        invariant forall c, r :: 0 <= c < col && 0 <= r < NRows ==> cells[c][r] == []
      {
        for row := 0 to NRows
          invariant Valid()
          invariant forall c, r :: 0 <= c < col && 0 <= r < NRows ==> cells[c][r] == []
          invariant forall r :: 0 <= r < row ==> cells[col][r] == []
        {
          cells := cells[col := cells[col][row := []]];
        }
      }
      for i := 0 to |particles|
        invariant Valid()
        invariant forall c, r :: 0 <= c < NColumns && 0 <= r < NRows ==> cells[c][r] == Bucket(s, i, c, r)
      {
        var col := CellIndex(particles[i].position.x, CellSize);
        var row := CellIndex(particles[i].position.y, CellSize);
        if col >= 0 && col < NColumns && row >= 0 && row < NRows {
          cells := cells[col := cells[col][row := cells[col][row] + [i]]];
        }
      }
    }

    /**
     * _checkCollisionsInGrid: for every cell, every particle in it, every
     * in-bounds neighbour cell and every other particle there, calls
     * Solver::resolve_collision with the default sum of radii.
     */
    method CheckCollisionsInGrid(particles: seq<Particle>, distance: (Vec2, Vec2) -> real)
      requires Valid() && IndicesBelow(cells, |particles|)
      requires Distinct(particles) && MassesPositive(StatesOf(particles))
      modifies particles
      ensures StatesOf(particles) == ApplyAll(old(StatesOf(particles)), ScanPairs(cells, |cells|), distance)
    {
      ghost var s0 := StatesOf(particles);
      var grid := cells;
      for col := 0 to NColumns
        invariant MassesPositive(StatesOf(particles))
        invariant StatesOf(particles) == ApplyAll(s0, ScanPairs(grid, col), distance)
      {
        ghost var done := ScanPairs(grid, col);
        ghost var next := ColumnPairs(grid, col, |grid[col]|);
        ResolveColumn(grid, particles, col, distance);
        assert ScanPairs(grid, col + 1) == done + next;
        ApplyAllAppend(s0, done, next, distance);
      }
    }
  }

  /** Every index stored in the grid names one of n particles. */
  predicate IndicesBelow(cells: seq<seq<seq<nat>>>, n: nat)
    requires Shaped(cells)
  {
    forall c, r, i :: 0 <= c < NColumns && 0 <= r < NRows && 0 <= i < |cells[c][r]| ==> cells[c][r][i] < n
  }

  /** The innermost loop of the scan: particle1 against each particle2 of one cell but itself. */
  method ResolveAgainst(particles: seq<Particle>, p1: nat, list: seq<nat>, distance: (Vec2, Vec2) -> real)
    requires Distinct(particles) && MassesPositive(StatesOf(particles))
    requires p1 < |particles| && forall i :: 0 <= i < |list| ==> list[i] < |particles|
    modifies particles
    ensures MassesPositive(StatesOf(particles))
    ensures StatesOf(particles) == ApplyAll(old(StatesOf(particles)), Partners(p1, list), distance)
  {
    ghost var s0 := StatesOf(particles);
    for j := 0 to |list|
      invariant MassesPositive(StatesOf(particles))
      invariant StatesOf(particles) == ApplyAll(s0, Partners(p1, list[..j]), distance)
    {
      var p2 := list[j];
      ghost var done := Partners(p1, list[..j]);
      PartnersSnoc(p1, list, j);
      if p1 != p2 {
        ResolvePair(particles, p1, p2, distance);
        ApplyAllSnoc(s0, done, (p1, p2), distance);
      } else {
        assert Partners(p1, list[..j + 1]) == done;
      }
    }
    assert list[..|list|] == list;
  }

  /** One direction of the scan: the neighbour cell (col + dx, row + dy), when it is inside the grid. */
  method ResolveDirection(cells: seq<seq<seq<nat>>>, particles: seq<Particle>, col: int, row: int, p1: nat,
                          dir: nat, distance: (Vec2, Vec2) -> real)
    requires Shaped(cells) && IndicesBelow(cells, |particles|) && dir < 9
    requires Distinct(particles) && MassesPositive(StatesOf(particles)) && p1 < |particles|
    modifies particles
    ensures MassesPositive(StatesOf(particles))
    ensures StatesOf(particles) == ApplyAll(old(StatesOf(particles)), Around1(cells, col, row, p1, dir), distance)
  {
    var adjCol := col + Dx[dir];
    var adjRow := row + Dy[dir];
    if adjCol >= 0 && adjCol < NColumns && adjRow >= 0 && adjRow < NRows {
      ResolveAgainst(particles, p1, cells[adjCol][adjRow], distance);
    }
  }

  /** The loop over the nine directions for one particle of cell (col, row). */
  method ResolveAround(cells: seq<seq<seq<nat>>>, particles: seq<Particle>, col: int, row: int, p1: nat,
                       distance: (Vec2, Vec2) -> real)
    requires Shaped(cells) && IndicesBelow(cells, |particles|)
    requires Distinct(particles) && MassesPositive(StatesOf(particles)) && p1 < |particles|
    modifies particles
    ensures MassesPositive(StatesOf(particles))
    ensures StatesOf(particles) == ApplyAll(old(StatesOf(particles)), AroundPairs(cells, col, row, p1, |Dx|), distance)
  {
    ghost var s0 := StatesOf(particles);
    for dir := 0 to |Dx|
      invariant MassesPositive(StatesOf(particles))
      invariant StatesOf(particles) == ApplyAll(s0, AroundPairs(cells, col, row, p1, dir), distance)
    {
      ghost var done := AroundPairs(cells, col, row, p1, dir);
      ghost var next := Around1(cells, col, row, p1, dir);
      ResolveDirection(cells, particles, col, row, p1, dir, distance);
      assert AroundPairs(cells, col, row, p1, dir + 1) == done + next;
      ApplyAllAppend(s0, done, next, distance);
    }
  }

  /** The loop over the particles of cell (col, row). */
  method ResolveCell(cells: seq<seq<seq<nat>>>, particles: seq<Particle>, col: int, row: int,
                     distance: (Vec2, Vec2) -> real)
    requires Shaped(cells) && IndicesBelow(cells, |particles|) && InBounds(col, row, NColumns, NRows)
    requires Distinct(particles) && MassesPositive(StatesOf(particles))
    modifies particles
    ensures MassesPositive(StatesOf(particles))
    ensures StatesOf(particles) == ApplyAll(old(StatesOf(particles)), CellPairs(cells, col, row, |cells[col][row]|), distance)
  {
    ghost var s0 := StatesOf(particles);
    var list := cells[col][row];
    for k := 0 to |list|
      invariant MassesPositive(StatesOf(particles))
      invariant StatesOf(particles) == ApplyAll(s0, CellPairs(cells, col, row, k), distance)
    {
      ghost var done := CellPairs(cells, col, row, k);
      ghost var next := AroundPairs(cells, col, row, list[k], |Dx|);
      ResolveAround(cells, particles, col, row, list[k], distance);
      assert CellPairs(cells, col, row, k + 1) == done + next;
      ApplyAllAppend(s0, done, next, distance);
    }
  }

  /** The loop over the rows of column col. */
  method ResolveColumn(cells: seq<seq<seq<nat>>>, particles: seq<Particle>, col: int, distance: (Vec2, Vec2) -> real)
    requires Shaped(cells) && IndicesBelow(cells, |particles|) && 0 <= col < NColumns
    requires Distinct(particles) && MassesPositive(StatesOf(particles))
    modifies particles
    ensures MassesPositive(StatesOf(particles))
    ensures StatesOf(particles) == ApplyAll(old(StatesOf(particles)), ColumnPairs(cells, col, |cells[col]|), distance)
  {
    ghost var s0 := StatesOf(particles);
    for row := 0 to NRows
      invariant MassesPositive(StatesOf(particles))
      invariant StatesOf(particles) == ApplyAll(s0, ColumnPairs(cells, col, row), distance)
    {
      ghost var done := ColumnPairs(cells, col, row);
      ghost var next := CellPairs(cells, col, row, |cells[col][row]|);
      ResolveCell(cells, particles, col, row, distance);
      assert ColumnPairs(cells, col, row + 1) == done + next;
      ApplyAllAppend(s0, done, next, distance);
    }
  }

  /** The particle references are pairwise distinct objects, as vector elements are. */
  predicate Distinct(ps: seq<Particle>) {
    forall a, b :: 0 <= a < b < |ps| ==> ps[a] != ps[b]
  }

  predicate MassesPositive(s: seq<ParticleState>) {
    forall k :: 0 <= k < |s| ==> s[k].mass > 0.0
  }

  /**
   * One resolve_collision call on particles a and b, on states. Pairs the
   * scan never produces (a repeated or missing index) leave the states alone.
   */
  function Step(s: seq<ParticleState>, pr: (nat, nat), distance: (Vec2, Vec2) -> real): (r: seq<ParticleState>)
    ensures |r| == |s|
    ensures forall k :: 0 <= k < |s| ==> r[k].mass == s[k].mass
  {
    var (a, b) := pr;
    if a < |s| && b < |s| && a != b && s[a].mass + s[b].mass != 0.0 then
      var res := Respond(s[a], s[b], distance(s[a].position, s[b].position),
                         Solver.DefaultSumOfRadii, Config.CollisionDampening);
      s[a := res.first][b := res.second]
    else s
  }

  /** The states after the calls for the given pairs, made in order. */
  function ApplyAll(s: seq<ParticleState>, pairs: seq<(nat, nat)>, distance: (Vec2, Vec2) -> real): (r: seq<ParticleState>)
    ensures |r| == |s|
    ensures forall k :: 0 <= k < |s| ==> r[k].mass == s[k].mass
    decreases |pairs|
  {
    if pairs == [] then s
    else Step(ApplyAll(s, pairs[..|pairs| - 1], distance), pairs[|pairs| - 1], distance)
  }

  /** Making the calls of xs and then those of ys is making the calls of xs + ys. */
  lemma {:induction false} ApplyAllAppend(s: seq<ParticleState>, xs: seq<(nat, nat)>, ys: seq<(nat, nat)>,
                                          distance: (Vec2, Vec2) -> real)
    ensures ApplyAll(s, xs + ys, distance) == ApplyAll(ApplyAll(s, xs, distance), ys, distance)
    decreases |ys|
  {
    if ys == [] {
      assert xs + ys == xs;
    } else {
      var last := ys[|ys| - 1];
      assert (xs + ys)[..|xs + ys| - 1] == xs + ys[..|ys| - 1];
      ApplyAllAppend(s, xs, ys[..|ys| - 1], distance);
    }
  }

  /** One call of Solver::resolve_collision on particles[a] and particles[b]. */
  method ResolvePair(particles: seq<Particle>, a: nat, b: nat, distance: (Vec2, Vec2) -> real)
    requires Distinct(particles) && MassesPositive(StatesOf(particles))
    requires a < |particles| && b < |particles| && a != b
    modifies particles[a], particles[b]
    ensures MassesPositive(StatesOf(particles))
    ensures StatesOf(particles) == Step(old(StatesOf(particles)), (a, b), distance)
  {
    ghost var s0 := StatesOf(particles);
    var body1, body2 := particles[a], particles[b];
    assert body1.State() == s0[a] && body2.State() == s0[b];
    Solver.ResolveCollision(body1, body2, Solver.DefaultSumOfRadii, distance(body1.position, body2.position));
    assert StatesOf(particles) == Step(s0, (a, b), distance);
  }

  /** Appending one call to the list applies one more Step. */
  lemma ApplyAllSnoc(s: seq<ParticleState>, xs: seq<(nat, nat)>, pr: (nat, nat), distance: (Vec2, Vec2) -> real)
    ensures ApplyAll(s, xs + [pr], distance) == Step(ApplyAll(s, xs, distance), pr, distance)
  {
    assert (xs + [pr])[..|xs|] == xs;
  }

  /** Extending the scanned prefix of a cell by one entry adds at most one call. */
  lemma PartnersSnoc(p1: nat, list: seq<nat>, j: nat)
    requires j < |list|
    ensures Partners(p1, list[..j + 1]) ==
      Partners(p1, list[..j]) + (if list[j] != p1 then [(p1, list[j])] else [])
  {
    assert list[..j + 1][..j] == list[..j];
  }

  /** The dx table of the scan. */
  const Dx: seq<int> := [-1, -1, -1, 0, 0, 0, 1, 1, 1]
  /** The dy table of the scan. */
  const Dy: seq<int> := [-1, 0, 1, -1, 0, 1, -1, 0, 1]

  /** The calls for particle1 against each entry of a cell, skipping particle1 itself. */
  function Partners(p1: nat, list: seq<nat>): (r: seq<(nat, nat)>)
    ensures forall i :: 0 <= i < |r| ==> r[i].0 == p1 && r[i].1 != p1 && r[i].1 in list
  {
    if list == [] then []
    else
      var p2 := list[|list| - 1];
      Partners(p1, list[..|list| - 1]) + (if p2 != p1 then [(p1, p2)] else [])
  }

  /** The calls for direction dir alone: none when that neighbour is outside the grid. */
  function Around1(cells: seq<seq<seq<nat>>>, col: int, row: int, p1: nat, dir: nat): seq<(nat, nat)>
    requires Shaped(cells) && dir < 9
  {
    var adjCol, adjRow := col + Dx[dir], row + Dy[dir];
    if InBounds(adjCol, adjRow, NColumns, NRows) then Partners(p1, cells[adjCol][adjRow]) else []
  }

  /** The calls for particle1 of cell (col, row) over the first d directions. */
  function AroundPairs(cells: seq<seq<seq<nat>>>, col: int, row: int, p1: nat, d: nat): seq<(nat, nat)>
    requires Shaped(cells) && d <= 9
  {
    if d == 0 then [] else AroundPairs(cells, col, row, p1, d - 1) + Around1(cells, col, row, p1, d - 1)
  }

  /** The calls for the first k particles of cell (col, row). */
  function CellPairs(cells: seq<seq<seq<nat>>>, col: int, row: int, k: nat): seq<(nat, nat)>
    requires Shaped(cells) && InBounds(col, row, NColumns, NRows) && k <= |cells[col][row]|
  {
    if k == 0 then []
    else CellPairs(cells, col, row, k - 1) + AroundPairs(cells, col, row, cells[col][row][k - 1], |Dx|)
  }

  /** The calls for the first rows cells of column col. */
  function ColumnPairs(cells: seq<seq<seq<nat>>>, col: int, rows: nat): seq<(nat, nat)>
    requires Shaped(cells) && 0 <= col < NColumns && rows <= NRows
  {
    if rows == 0 then []
    else ColumnPairs(cells, col, rows - 1) + CellPairs(cells, col, rows - 1, |cells[col][rows - 1]|)
  }

  /** The calls of the whole scan over the first cols columns. */
  function ScanPairs(cells: seq<seq<seq<nat>>>, cols: nat): seq<(nat, nat)>
    requires Shaped(cells) && cols <= NColumns
  {
    if cols == 0 then [] else ScanPairs(cells, cols - 1) + ColumnPairs(cells, cols - 1, |cells[cols - 1]|)
  }

  /** nColumns columns of nRows cells. */
  predicate Shaped(cells: seq<seq<seq<nat>>>) {
    |cells| == NColumns && forall c :: 0 <= c < NColumns ==> |cells[c]| == NRows
  }

  /** c is within one of col. */
  predicate Adjacent(c: int, col: int) {
    col - 1 <= c <= col + 1
  }

  /** particle1 is paired with exactly the other entries of the list. */
  lemma {:induction false} PartnersMembership(p1: nat, list: seq<nat>, pr: (nat, nat))
    ensures pr in Partners(p1, list) <==> pr.0 == p1 && pr.1 != p1 && pr.1 in list
  {
    if list != [] {
      var init := list[..|list| - 1];
      PartnersMembership(p1, init, pr);
      assert list == init + [list[|list| - 1]];
    }
  }

  /** The first d directions produce the pairs of the neighbours they reach. */
  lemma {:induction false} AroundPrefix(cells: seq<seq<seq<nat>>>, col: int, row: int, p1: nat, d: nat, pr: (nat, nat))
    requires Shaped(cells) && d <= 9
    ensures pr in AroundPairs(cells, col, row, p1, d) <==>
      exists dir :: 0 <= dir < d && pr in Around1(cells, col, row, p1, dir)
  {
    if d > 0 {
      AroundPrefix(cells, col, row, p1, d - 1, pr);
      var last := Around1(cells, col, row, p1, d - 1);
      assert AroundPairs(cells, col, row, p1, d) == AroundPairs(cells, col, row, p1, d - 1) + last;
      if exists dir :: 0 <= dir < d && pr in Around1(cells, col, row, p1, dir) {
        var dir :| 0 <= dir < d && pr in Around1(cells, col, row, p1, dir);
        if dir < d - 1 {
          assert pr in AroundPairs(cells, col, row, p1, d - 1);
        }
      }
    }
  }

  /** Direction dir pairs particle1 with the other particles of that neighbour, when it is in bounds. */
  lemma Around1Membership(cells: seq<seq<seq<nat>>>, col: int, row: int, p1: nat, dir: nat, pr: (nat, nat))
    requires Shaped(cells) && dir < 9
    ensures pr in Around1(cells, col, row, p1, dir) <==>
      InBounds(col + Dx[dir], row + Dy[dir], NColumns, NRows) &&
      pr.0 == p1 && pr.1 != p1 && pr.1 in cells[col + Dx[dir]][row + Dy[dir]]
  {
    if InBounds(col + Dx[dir], row + Dy[dir], NColumns, NRows) {
      PartnersMembership(p1, cells[col + Dx[dir]][row + Dy[dir]], pr);
    }
  }

  /** The direction tables list each of the nine offsets in {-1, 0, 1}^2 and nothing else. */
  lemma OffsetsListed(dc: int, dr: int)
    ensures (Adjacent(dc, 0) && Adjacent(dr, 0)) <==> exists dir :: 0 <= dir < 9 && Dx[dir] == dc && Dy[dir] == dr
  {
    if Adjacent(dc, 0) && Adjacent(dr, 0) {
      var dir := (dc + 1) * 3 + (dr + 1);
      assert Dx[dir] == dc && Dy[dir] == dr;
    }
    assert forall dir :: 0 <= dir < 9 ==> Adjacent(Dx[dir], 0) && Adjacent(Dy[dir], 0);
  }

  /**
   * The nine directions pair particle1 with every other particle of every
   * in-bounds cell within one column and one row of (col, row), and with
   * nothing else.
   */
  lemma AroundMembership(cells: seq<seq<seq<nat>>>, col: int, row: int, p1: nat, pr: (nat, nat))
    requires Shaped(cells)
    ensures pr in AroundPairs(cells, col, row, p1, |Dx|) <==>
      pr.0 == p1 && pr.1 != p1 &&
      exists c, r :: Adjacent(c, col) && Adjacent(r, row) && InBounds(c, r, NColumns, NRows) && pr.1 in cells[c][r]
  {
    AroundPrefix(cells, col, row, p1, |Dx|, pr);
    if pr in AroundPairs(cells, col, row, p1, |Dx|) {
      var dir :| 0 <= dir < 9 && pr in Around1(cells, col, row, p1, dir);
      AroundSound(cells, col, row, p1, dir, pr);
    }
    if pr.0 == p1 && pr.1 != p1 &&
       exists c, r :: Adjacent(c, col) && Adjacent(r, row) && InBounds(c, r, NColumns, NRows) && pr.1 in cells[c][r]
    {
      var c, r :| Adjacent(c, col) && Adjacent(r, row) && InBounds(c, r, NColumns, NRows) && pr.1 in cells[c][r];
      var dir := AroundComplete(cells, col, row, p1, c, r, pr);
    }
  }

  /** A pair one direction produces joins particle1 to another particle of a neighbouring cell. */
  lemma AroundSound(cells: seq<seq<seq<nat>>>, col: int, row: int, p1: nat, dir: nat, pr: (nat, nat))
    requires Shaped(cells) && dir < 9 && pr in Around1(cells, col, row, p1, dir)
    ensures pr.0 == p1 && pr.1 != p1
    ensures exists c, r :: Adjacent(c, col) && Adjacent(r, row) && InBounds(c, r, NColumns, NRows) && pr.1 in cells[c][r]
  {
    Around1Membership(cells, col, row, p1, dir, pr);
    OffsetsListed(Dx[dir], Dy[dir]);
    var c, r := col + Dx[dir], row + Dy[dir];
    assert Adjacent(c, col) && Adjacent(r, row) && InBounds(c, r, NColumns, NRows) && pr.1 in cells[c][r];
  }

  /** Another particle of a neighbouring cell is reached by some direction. */
  lemma AroundComplete(cells: seq<seq<seq<nat>>>, col: int, row: int, p1: nat, c: int, r: int, pr: (nat, nat))
    returns (dir: nat)
    requires Shaped(cells) && pr.0 == p1 && pr.1 != p1
    requires Adjacent(c, col) && Adjacent(r, row) && InBounds(c, r, NColumns, NRows) && pr.1 in cells[c][r]
    ensures dir < 9 && pr in Around1(cells, col, row, p1, dir)
  {
    OffsetsListed(c - col, r - row);
    dir :| 0 <= dir < 9 && Dx[dir] == c - col && Dy[dir] == r - row;
    Around1Membership(cells, col, row, p1, dir, pr);
  }

  /** The first k particles of a cell produce the pairs of their own scans. */
  lemma {:induction false} CellPrefix(cells: seq<seq<seq<nat>>>, col: int, row: int, k: nat, pr: (nat, nat))
    requires Shaped(cells) && InBounds(col, row, NColumns, NRows) && k <= |cells[col][row]|
    ensures pr in CellPairs(cells, col, row, k) <==>
      pr.0 in cells[col][row][..k] && pr in AroundPairs(cells, col, row, pr.0, |Dx|)
  {
    if k > 0 {
      CellPrefix(cells, col, row, k - 1, pr);
      var p1 := cells[col][row][k - 1];
      var earlier := CellPairs(cells, col, row, k - 1);
      var last := AroundPairs(cells, col, row, p1, |Dx|);
      assert CellPairs(cells, col, row, k) == earlier + last;
      AroundMembership(cells, col, row, p1, pr);
      assert cells[col][row][..k] == cells[col][row][..k - 1] + [p1];
      assert pr in last ==> pr.0 == p1;
    }
  }

  /** The first rows cells of a column produce the pairs of those cells. */
  lemma {:induction false} ColumnPrefix(cells: seq<seq<seq<nat>>>, col: int, rows: nat, pr: (nat, nat))
    requires Shaped(cells) && 0 <= col < NColumns && rows <= NRows
    ensures pr in ColumnPairs(cells, col, rows) <==>
      exists r :: 0 <= r < rows && pr in CellPairs(cells, col, r, |cells[col][r]|)
  {
    if rows > 0 {
      ColumnPrefix(cells, col, rows - 1, pr);
      var last := CellPairs(cells, col, rows - 1, |cells[col][rows - 1]|);
      assert ColumnPairs(cells, col, rows) == ColumnPairs(cells, col, rows - 1) + last;
      if exists r :: 0 <= r < rows && pr in CellPairs(cells, col, r, |cells[col][r]|) {
        var r :| 0 <= r < rows && pr in CellPairs(cells, col, r, |cells[col][r]|);
        if r < rows - 1 {
          assert pr in ColumnPairs(cells, col, rows - 1);
        }
      }
    }
  }

  /** The first cols columns produce the pairs of their columns. */
  lemma {:induction false} ScanPrefix(cells: seq<seq<seq<nat>>>, cols: nat, pr: (nat, nat))
    requires Shaped(cells) && cols <= NColumns
    ensures pr in ScanPairs(cells, cols) <==>
      exists c :: 0 <= c < cols && pr in ColumnPairs(cells, c, |cells[c]|)
  {
    if cols > 0 {
      ScanPrefix(cells, cols - 1, pr);
      var last := ColumnPairs(cells, cols - 1, |cells[cols - 1]|);
      assert ScanPairs(cells, cols) == ScanPairs(cells, cols - 1) + last;
      if exists c :: 0 <= c < cols && pr in ColumnPairs(cells, c, |cells[c]|) {
        var c :| 0 <= c < cols && pr in ColumnPairs(cells, c, |cells[c]|);
        if c < cols - 1 {
          assert pr in ScanPairs(cells, cols - 1);
        }
      }
    }
  }

  /** The whole scan produces the pairs of every cell's own scan. */
  lemma ScanCells(cells: seq<seq<seq<nat>>>, pr: (nat, nat))
    requires Shaped(cells)
    ensures pr in ScanPairs(cells, |cells|) <==>
      exists c, r :: InBounds(c, r, NColumns, NRows) && pr in CellPairs(cells, c, r, |cells[c][r]|)
  {
    ScanPrefix(cells, |cells|, pr);
    if pr in ScanPairs(cells, |cells|) {
      var c :| 0 <= c < |cells| && pr in ColumnPairs(cells, c, |cells[c]|);
      ColumnPrefix(cells, c, |cells[c]|, pr);
      var r :| 0 <= r < |cells[c]| && pr in CellPairs(cells, c, r, |cells[c][r]|);
      assert InBounds(c, r, NColumns, NRows);
    }
    if exists c, r :: InBounds(c, r, NColumns, NRows) && pr in CellPairs(cells, c, r, |cells[c][r]|) {
      var c, r :| InBounds(c, r, NColumns, NRows) && pr in CellPairs(cells, c, r, |cells[c][r]|);
      ColumnPrefix(cells, c, |cells[c]|, pr);
      assert pr in ColumnPairs(cells, c, |cells[c]|);
    }
  }

  /**
   * On a grid the scan's calls are exactly the ordered pairs (a, b) with a in
   * some cell, b a different particle in that cell or in an in-bounds
   * neighbouring cell.
   */
  lemma ScanMembership(cells: seq<seq<seq<nat>>>, pr: (nat, nat))
    requires Shaped(cells)
    ensures pr in ScanPairs(cells, |cells|) <==>
      pr.0 != pr.1 &&
      exists c, r :: InBounds(c, r, NColumns, NRows) && pr.0 in cells[c][r] &&
        exists c2, r2 :: Adjacent(c2, c) && Adjacent(r2, r) && InBounds(c2, r2, NColumns, NRows) && pr.1 in cells[c2][r2]
  {
    ScanCells(cells, pr);
    forall c, r | InBounds(c, r, NColumns, NRows)
      ensures pr in CellPairs(cells, c, r, |cells[c][r]|) <==> pr.0 in cells[c][r] && pr in AroundPairs(cells, c, r, pr.0, |Dx|)
    {
      CellPrefix(cells, c, r, |cells[c][r]|, pr);
      assert cells[c][r][..|cells[c][r]|] == cells[c][r];
      AroundMembership(cells, c, r, pr.0, pr);
    }
    forall c, r | InBounds(c, r, NColumns, NRows)
      ensures pr in AroundPairs(cells, c, r, pr.0, |Dx|) <==>
        (pr.0 != pr.1 &&
         exists c2, r2 :: Adjacent(c2, c) && Adjacent(r2, r) && InBounds(c2, r2, NColumns, NRows) && pr.1 in cells[c2][r2])
    {
      AroundMembership(cells, c, r, pr.0, pr);
    }
  }

  /**
   * After assignParticlesToGrid the scan resolves exactly the ordered pairs
   * of distinct particles that are both kept by the grid and whose cells are
   * within one column and one row of each other; so every such unordered
   * pair is handed to resolve_collision in both orders.
   */
  lemma ScanFindsNeighbours(cells: seq<seq<seq<nat>>>, s: seq<ParticleState>, a: nat, b: nat)
    requires IsAssignment(cells, s)
    ensures (a, b) in ScanPairs(cells, |cells|) <==>
      a < |s| && b < |s| && a != b && Placed(s[a].position) && Placed(s[b].position) &&
      Adjacent(CellOf(s[b].position).0, CellOf(s[a].position).0) &&
      Adjacent(CellOf(s[b].position).1, CellOf(s[a].position).1)
  {
    ScanMembership(cells, (a, b));
    forall c, r | InBounds(c, r, NColumns, NRows)
      ensures a in cells[c][r] <==> a < |s| && Placed(s[a].position) && CellOf(s[a].position) == (c, r)
      ensures b in cells[c][r] <==> b < |s| && Placed(s[b].position) && CellOf(s[b].position) == (c, r)
    {
      BucketMembership(s, |s|, c, r, a);
      BucketMembership(s, |s|, c, r, b);
    }
    if a < |s| && b < |s| && a != b && Placed(s[a].position) && Placed(s[b].position) &&
       Adjacent(CellOf(s[b].position).0, CellOf(s[a].position).0) &&
       Adjacent(CellOf(s[b].position).1, CellOf(s[a].position).1)
    {
      var (c, r) := CellOf(s[a].position);
      var (c2, r2) := CellOf(s[b].position);
      assert a in cells[c][r] && b in cells[c2][r2];
    }
  }

  /** The scan is symmetric: it resolves (a, b) exactly when it resolves (b, a). */
  lemma ScanSymmetric(cells: seq<seq<seq<nat>>>, s: seq<ParticleState>, a: nat, b: nat)
    requires IsAssignment(cells, s)
    ensures (a, b) in ScanPairs(cells, |cells|) <==> (b, a) in ScanPairs(cells, |cells|)
  {
    ScanFindsNeighbours(cells, s, a, b);
    ScanFindsNeighbours(cells, s, b, a);
  }

  /** Every index an assignment stores names a particle, as the scan requires. */
  lemma AssignmentIndicesBelow(cells: seq<seq<seq<nat>>>, s: seq<ParticleState>)
    requires IsAssignment(cells, s)
    ensures IndicesBelow(cells, |s|)
  {
    forall c, r, i | 0 <= c < NColumns && 0 <= r < NRows && 0 <= i < |cells[c][r]|
      ensures cells[c][r][i] < |s|
    {
      BucketOrdered(s, |s|, c, r);
    }
  }

  /** A particle is in a bucket exactly when it is kept and truncates into that cell. */
  lemma {:induction false} BucketMembership(s: seq<ParticleState>, n: nat, col: int, row: int, k: int)
    requires n <= |s|
    ensures k in Bucket(s, n, col, row) <==>
      0 <= k < n && Placed(s[k].position) && CellOf(s[k].position) == (col, row)
  {
    if n > 0 {
      BucketMembership(s, n - 1, col, row, k);
    }
  }

  /** Buckets list particles in strictly increasing index order: input order, no repeats. */
  lemma {:induction false} BucketOrdered(s: seq<ParticleState>, n: nat, col: int, row: int)
    requires n <= |s|
    ensures forall a, b :: 0 <= a < b < |Bucket(s, n, col, row)| ==>
      Bucket(s, n, col, row)[a] < Bucket(s, n, col, row)[b]
    ensures forall a :: 0 <= a < |Bucket(s, n, col, row)| ==> Bucket(s, n, col, row)[a] < n
  {
    if n > 0 {
      BucketOrdered(s, n - 1, col, row);
    }
  }

  /**
   * After assignment every particle that truncates into the grid is in the
   * cell of its position and in no other; every other particle is in none.
   */
  lemma AssignmentPlacesOnce(cells: seq<seq<seq<nat>>>, s: seq<ParticleState>, k: nat, c: int, r: int)
    requires IsAssignment(cells, s) && k < |s|
    requires 0 <= c < NColumns && 0 <= r < NRows
    ensures k in cells[c][r] <==> Placed(s[k].position) && CellOf(s[k].position) == (c, r)
  {
    BucketMembership(s, |s|, c, r, k);
  }

  /**
   * Which particles the grid keeps: those with -cellSize < x < nColumns *
   * cellSize and -cellSize < y < nRows * cellSize. A coordinate in
   * (-cellSize, 0) is kept in index 0 rather than excluded.
   */
  lemma PlacedIff(p: Vec2)
    ensures Placed(p) <==>
      -(CellSize as real) < p.x < (NColumns as real) * (CellSize as real) &&
      -(CellSize as real) < p.y < (NRows as real) * (CellSize as real)
  {
    CellIndexInRange(p.x, CellSize, NColumns);
    CellIndexInRange(p.y, CellSize, NRows);
  }
}
