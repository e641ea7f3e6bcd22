/**
 * The uniform gravity grid of include/GravityGrid.hpp. Each cell has a fixed
 * centre, an accumulated mass and its own COPIES of the particles that
 * truncate into it (a std::vector<Particle> of values), so everything the
 * grid does happens to the copies: the particle vector it was built from is
 * never changed. The pairwise gravitational force is a parameter, as in the
 * brute-force pass of the solver.
 */
module GravityGrid {
  import opened Vectors
  import opened Particles
  import opened Grid
  import Solver
  import Config

  /** cellSize = config.gravityGridCellSize */
  const CellSize: int := Config.GravityGridCellSize
  /** nColumns = windowWidth / cellSize, integer division (GridSize states it) */
  const NColumns: int := 3
  /** nRows = windowHeight / cellSize, integer division */
  const NRows: int := 2

  lemma GridSize()
    ensures NColumns == Config.WindowWidth / CellSize && NRows == Config.WindowHeight / CellSize
  {
  }

  /** The nine (dCol, dRow) offsets of the neighbour loops. */
  const Directions: nat := 9

  /** GravityGridCell: mass, centre and the copied particles. */
  datatype GridCell = GridCell(mass: real, position: Vec2, particles: seq<ParticleState>)

  /** nColumns columns of nRows cells. */
  predicate Shaped(cells: seq<seq<GridCell>>) {
    |cells| == NColumns && forall c :: 0 <= c < NColumns ==> |cells[c]| == NRows
  }

  /** The centre (col * cellSize + cellSize / 2, row * cellSize + cellSize / 2) of a cell. */
  function Centre(col: int, row: int): Vec2 {
    Vec2((col * CellSize) as real + CellSize as real / 2.0, (row * CellSize) as real + CellSize as real / 2.0)
  }

  /** The (column, row) a position truncates into. */
  function CellOf(p: Vec2): (int, int) {
    (CellIndex(p.x, CellSize), CellIndex(p.y, CellSize))
  }

  /** Whether the assignment keeps a particle at p. */
  predicate Placed(p: Vec2) {
    InBounds(CellOf(p).0, CellOf(p).1, NColumns, NRows)
  }

  /** Copies of the first n particles that land in cell (col, row), in particle order. */
  function Kept(s: seq<ParticleState>, n: nat, col: int, row: int): seq<ParticleState>
    requires n <= |s|
  {
    if n == 0 then []
    else
      var kept := Placed(s[n - 1].position) && CellOf(s[n - 1].position) == (col, row);
      Kept(s, n - 1, col, row) + (if kept then [s[n - 1]] else [])
  }

  /** The masses of a list of particles, added in list order from zero. */
  function TotalMass(ps: seq<ParticleState>): real {
    if ps == [] then 0.0 else TotalMass(ps[..|ps| - 1]) + ps[|ps| - 1].mass
  }

  /** Two lists of particles with the same masses and positions, entry by entry. */
  predicate SameBodies(a: seq<ParticleState>, b: seq<ParticleState>) {
    |a| == |b| && forall k :: 0 <= k < |a| ==> a[k].mass == b[k].mass && a[k].position == b[k].position
  }

  /** Two grids that differ at most in the forces of their copies. */
  predicate SameGridBodies(g: seq<seq<GridCell>>, h: seq<seq<GridCell>>) {
    Shaped(g) && Shaped(h) &&
    forall c, r :: 0 <= c < NColumns && 0 <= r < NRows ==> SameBodies(g[c][r].particles, h[c][r].particles)
  }

  /**
   * The pull on p1 of the entries of list below j, in list order, leaving
   * out the entry at index skip (particle1 itself when list is its own cell).
   */
  function PairSum(p1: ParticleState, list: seq<ParticleState>, skip: int,
                   pairForce: (real, Vec2, real, Vec2) -> Vec2, j: nat): Vec2
    requires j <= |list|
  {
    if j == 0 then Zero
    else if j - 1 == skip then PairSum(p1, list, skip, pairForce, j - 1)
    else Add(PairSum(p1, list, skip, pairForce, j - 1),
             pairForce(p1.mass, p1.position, list[j - 1].mass, list[j - 1].position))
  }

  /** Direction d is (dCol, dRow) = (d / 3 - 1, d % 3 - 1): dCol in the outer loop, dRow in the inner. */
  function Offset(d: int): (int, int) {
    (d / 3 - 1, d % 3 - 1)
  }

  /** The pull on copy i of cell (col, row) from the neighbour in direction d: zero when it is outside the grid. */
  function NeighbourPull(g: seq<seq<GridCell>>, col: int, row: int, i: nat, d: int,
                         pairForce: (real, Vec2, real, Vec2) -> Vec2): Vec2
    requires Shaped(g) && InBounds(col, row, NColumns, NRows) && i < |g[col][row].particles|
  {
    var nc, nr := col + Offset(d).0, row + Offset(d).1;
    if InBounds(nc, nr, NColumns, NRows) then
      var neighbour := g[nc][nr].particles;
      PairSum(g[col][row].particles[i], neighbour, if nc == col && nr == row then i else -1, pairForce, |neighbour|)
    else Zero
  }

  /** The pulls of the first d directions on copy i of cell (col, row), in loop order. */
  function DirSum(g: seq<seq<GridCell>>, col: int, row: int, i: nat, d: nat,
                  pairForce: (real, Vec2, real, Vec2) -> Vec2): Vec2
    requires Shaped(g) && InBounds(col, row, NColumns, NRows) && i < |g[col][row].particles|
  {
    if d == 0 then Zero
    else Add(DirSum(g, col, row, i, d - 1, pairForce), NeighbourPull(g, col, row, i, d - 1, pairForce))
  }

  /** The copies of cell (col, row) once the first d directions have added their pulls. */
  function Pulled(g: seq<seq<GridCell>>, col: int, row: int, pairForce: (real, Vec2, real, Vec2) -> Vec2, d: nat)
    : (r: seq<ParticleState>)
    requires Shaped(g) && InBounds(col, row, NColumns, NRows)
    ensures SameBodies(r, g[col][row].particles)
  {
    var list := g[col][row].particles;
    seq(|list|, i requires 0 <= i < |list| =>
      list[i].(force := Add(list[i].force, DirSum(g, col, row, i, d, pairForce))))
  }

  class GravityGrid {
    /** cells[col][row] */
    var cells: seq<seq<GridCell>>

    /** The grid has nColumns columns of nRows cells each. */
    predicate Valid()
      reads this
    {
      Shaped(cells)
    }

    /**
     * GravityGrid(): nColumns columns of nRows cells, each with zero mass, no
     * particles and its centre as position.
     */
    constructor()
      ensures Valid()
      ensures forall c, r :: 0 <= c < NColumns && 0 <= r < NRows ==> cells[c][r] == GridCell(0.0, Centre(c, r), [])
    {
      cells := seq(NColumns, _ => seq(NRows, _ => GridCell(0.0, Zero, [])));
      new;
      for col := 0 to NColumns
        invariant Shaped(cells)
        invariant forall c, r :: 0 <= c < NColumns && 0 <= r < NRows ==>
          cells[c][r] == GridCell(0.0, if c < col then Centre(c, r) else Zero, [])
      {
        for row := 0 to NRows
          invariant Shaped(cells)
          invariant forall c, r :: 0 <= c < NColumns && 0 <= r < NRows ==>
            cells[c][r] == GridCell(0.0, if c < col || (c == col && r < row) then Centre(c, r) else Zero, [])
        {
          cells := cells[col := cells[col][row := cells[col][row].(position := Centre(col, row))]];
        }
      }
    }

    /**
     * assignParticlesToGrid: zeroes every cell's mass and empties its list,
     * then appends a copy of each particle that lands inside the grid to its
     * cell and adds its mass. Each cell's mass is then the total mass of its
     * copies; centres and the particles themselves are untouched.
     */
    method AssignParticlesToGrid(particles: seq<Particle>)
      requires Valid()
      modifies this
      ensures Valid()
      ensures forall k :: 0 <= k < |particles| ==> particles[k].State() == old(particles[k].State())
      ensures forall c, r :: 0 <= c < NColumns && 0 <= r < NRows ==>
        cells[c][r].position == old(cells[c][r].position) &&
        cells[c][r].particles == Kept(StatesOf(particles), |particles|, c, r) &&
        cells[c][r].mass == TotalMass(cells[c][r].particles)
    {
      var cleared := ClearCells(cells);
      cells := DepositAll(cleared, particles);
    }

    /**
     * calculateGravity: for every cell and every neighbour within one column
     * and one row, adds to each copy the pull of every copy in that neighbour
     * other than itself. Only the copies' forces change.
     */
    method CalculateGravity(pairForce: (real, Vec2, real, Vec2) -> Vec2)
      requires Valid()
      modifies this
      ensures Valid()
      ensures forall c, r :: 0 <= c < NColumns && 0 <= r < NRows ==>
        cells[c][r] == old(cells[c][r]).(particles := Pulled(old(cells), c, r, pairForce, Directions))
    {
      ghost var g0 := cells;
      for col := 0 to NColumns
        invariant SameGridBodies(cells, g0)
        invariant forall c, r :: 0 <= c < NColumns && 0 <= r < NRows ==>
          cells[c][r] == if c < col then g0[c][r].(particles := Pulled(g0, c, r, pairForce, Directions)) else g0[c][r]
      {
        for row := 0 to NRows
          invariant SameGridBodies(cells, g0)
          invariant forall c, r :: 0 <= c < NColumns && 0 <= r < NRows ==>
            cells[c][r] == if c < col || (c == col && r < row)
              then g0[c][r].(particles := Pulled(g0, c, r, pairForce, Directions)) else g0[c][r]
        {
          ghost var cur := cells;
          PulledIgnoresForces(cur, g0, col, row, pairForce, Directions);
          cells := PullAround(cells, col, row, pairForce);
          assert cells[col][row] == g0[col][row].(particles := Pulled(g0, col, row, pairForce, Directions));
        }
      }
    }
  }

  /** The second loop of assignParticlesToGrid: each particle in turn goes to the cell it lands in. */
  method DepositAll(g: seq<seq<GridCell>>, particles: seq<Particle>) returns (r: seq<seq<GridCell>>)
    requires Shaped(g) && forall c, k :: 0 <= c < NColumns && 0 <= k < NRows ==> g[c][k].mass == 0.0 && g[c][k].particles == []
    ensures Shaped(r)
    ensures forall c, k :: 0 <= c < NColumns && 0 <= k < NRows ==> r[c][k].position == g[c][k].position
    ensures KeptUpTo(r, StatesOf(particles), |particles|)
  {
    ghost var s := StatesOf(particles);
    r := g;
    for i := 0 to |particles|
      invariant Shaped(r)
      invariant forall c, k :: 0 <= c < NColumns && 0 <= k < NRows ==> r[c][k].position == g[c][k].position
      invariant KeptUpTo(r, s, i)
    {
      assert particles[i].State() == s[i];
      ghost var before := r;
      r := Deposit(r, particles[i].State());
      DepositKeeps(before, r, s, i);
    }
  }

  /** The first loop of assignParticlesToGrid: every cell gets zero mass and no copies. */
  method ClearCells(g: seq<seq<GridCell>>) returns (r: seq<seq<GridCell>>)
    requires Shaped(g)
    ensures Shaped(r)
    ensures forall c, k :: 0 <= c < NColumns && 0 <= k < NRows ==> r[c][k] == g[c][k].(mass := 0.0, particles := [])
  {
    r := g;
    for col := 0 to NColumns
      invariant Shaped(r)
      invariant forall c, k :: 0 <= c < NColumns && 0 <= k < NRows ==>
        r[c][k] == if c < col then g[c][k].(mass := 0.0, particles := []) else g[c][k]
    {
      for row := 0 to NRows
        invariant Shaped(r)
        invariant forall c, k :: 0 <= c < NColumns && 0 <= k < NRows ==>
          r[c][k] == if c < col || (c == col && k < row) then g[c][k].(mass := 0.0, particles := []) else g[c][k]
      {
        r := r[col := r[col][row := r[col][row].(mass := 0.0, particles := [])]];
      }
    }
  }

  /**
   * The body of the particle loop of assignParticlesToGrid: a copy of p goes
   * to the end of its cell's list and its mass is added to the cell's mass,
   * when that cell is inside the grid.
   */
  method Deposit(g: seq<seq<GridCell>>, p: ParticleState) returns (r: seq<seq<GridCell>>)
    requires Shaped(g)
    ensures Shaped(r)
    ensures forall c, k :: 0 <= c < NColumns && 0 <= k < NRows ==>
      r[c][k] == if Placed(p.position) && CellOf(p.position) == (c, k)
        then g[c][k].(particles := g[c][k].particles + [p], mass := g[c][k].mass + p.mass)
        else g[c][k]
  {
    r := g;
    var col := CellIndex(p.position.x, CellSize);
    var row := CellIndex(p.position.y, CellSize);
    if col >= 0 && col < NColumns && row >= 0 && row < NRows {
      var cell := g[col][row];
      r := g[col := g[col][row := cell.(particles := cell.particles + [p], mass := cell.mass + p.mass)]];
    }
  }

  /** Every cell holds the copies of the first n particles that land in it, and their mass. */
  ghost predicate KeptUpTo(g: seq<seq<GridCell>>, s: seq<ParticleState>, n: nat)
    requires Shaped(g) && n <= |s|
  {
    forall c, r :: 0 <= c < NColumns && 0 <= r < NRows ==>
      g[c][r].particles == Kept(s, n, c, r) && g[c][r].mass == TotalMass(Kept(s, n, c, r))
  }

  /** Depositing particle n into a grid that holds the first n particles makes it hold the first n + 1. */
  lemma DepositKeeps(g: seq<seq<GridCell>>, h: seq<seq<GridCell>>, s: seq<ParticleState>, n: nat)
    requires Shaped(g) && Shaped(h) && n < |s| && KeptUpTo(g, s, n)
    requires forall c, k :: 0 <= c < NColumns && 0 <= k < NRows ==>
      h[c][k] == if Placed(s[n].position) && CellOf(s[n].position) == (c, k)
        then g[c][k].(particles := g[c][k].particles + [s[n]], mass := g[c][k].mass + s[n].mass)
        else g[c][k]
    ensures KeptUpTo(h, s, n + 1)
  {
    forall c, k | 0 <= c < NColumns && 0 <= k < NRows
      ensures h[c][k].particles == Kept(s, n + 1, c, k) && h[c][k].mass == TotalMass(Kept(s, n + 1, c, k))
    {
      if Placed(s[n].position) && CellOf(s[n].position) == (c, k) {
        TotalMassSnoc(Kept(s, n, c, k), s[n]);
      } else {
        assert Kept(s, n + 1, c, k) == Kept(s, n, c, k) + [];
      }
    }
  }

  /** Appending a copy adds its mass last. */
  lemma TotalMassSnoc(ps: seq<ParticleState>, p: ParticleState)
    ensures TotalMass(ps + [p]) == TotalMass(ps) + p.mass
  {
    assert (ps + [p])[..|ps|] == ps;
  }

  /**
   * The particle2 loop for one particle1: adds the pull of each entry of the
   * neighbour list except the one at index skip.
   */
  method Pull(p1: ParticleState, neighbour: seq<ParticleState>, skip: int,
              pairForce: (real, Vec2, real, Vec2) -> Vec2) returns (r: ParticleState)
    ensures r == p1.(force := Add(p1.force, PairSum(p1, neighbour, skip, pairForce, |neighbour|)))
  {
    r := p1;
    for j := 0 to |neighbour|
      invariant r == p1.(force := Add(p1.force, PairSum(p1, neighbour, skip, pairForce, j)))
    {
      if j != skip {
        var p2 := neighbour[j];
        r := r.(force := Add(r.force, pairForce(r.mass, r.position, p2.mass, p2.position)));
      }
    }
  }

  /**
   * The particle1 loop for one neighbour cell: each copy of the cell gets the
   * pull of the neighbour's copies, leaving itself out when the neighbour is
   * its own cell.
   */
  method PullCell(cell: seq<ParticleState>, neighbour: seq<ParticleState>, same: bool,
                  pairForce: (real, Vec2, real, Vec2) -> Vec2) returns (r: seq<ParticleState>)
    ensures |r| == |cell|
    ensures forall i :: 0 <= i < |cell| ==>
      r[i] == cell[i].(force := Add(cell[i].force, PairSum(cell[i], neighbour, if same then i else -1, pairForce, |neighbour|)))
  {
    r := cell;
    for i := 0 to |cell|
      invariant |r| == |cell|
      invariant forall k :: 0 <= k < i ==>
        r[k] == cell[k].(force := Add(cell[k].force, PairSum(cell[k], neighbour, if same then k else -1, pairForce, |neighbour|)))
      invariant forall k :: i <= k < |cell| ==> r[k] == cell[k]
    {
      var p := Pull(r[i], neighbour, if same then i else -1, pairForce);
      r := r[i := p];
    }
  }

  /**
   * The dCol and dRow loops for cell (col, row): an empty cell is skipped,
   * as are neighbours outside the grid and empty neighbours.
   */
  method PullAround(g: seq<seq<GridCell>>, col: int, row: int, pairForce: (real, Vec2, real, Vec2) -> Vec2)
    returns (r: seq<seq<GridCell>>)
    requires Shaped(g) && InBounds(col, row, NColumns, NRows)
    ensures r == g[col := g[col][row := g[col][row].(particles := Pulled(g, col, row, pairForce, Directions))]]
  {
    r := g;
    PulledNone(g, col, row, pairForce);
    if |g[col][row].particles| == 0 {
      assert Pulled(g, col, row, pairForce, Directions) == g[col][row].particles;
      return;
    }
    for dCol := -1 to 2
      invariant r == g[col := g[col][row := g[col][row].(particles := Pulled(g, col, row, pairForce, 3 * (dCol + 1)))]]
    {
      for dRow := -1 to 2
        invariant r == g[col := g[col][row :=
          g[col][row].(particles := Pulled(g, col, row, pairForce, 3 * (dCol + 1) + (dRow + 1)))]]
      {
        r := PullDirection(g, r, col, row, dCol, dRow, pairForce);
      }
    }
  }

  /**
   * The body of the dRow loop: neighbour (col + dCol, row + dRow) adds its
   * pull to the copies of cell (col, row) in the working grid r, unless it
   * is outside the grid or empty.
   */
  method PullDirection(g: seq<seq<GridCell>>, r: seq<seq<GridCell>>, col: int, row: int, dCol: int, dRow: int,
                       pairForce: (real, Vec2, real, Vec2) -> Vec2)
    returns (r': seq<seq<GridCell>>)
    requires Shaped(g) && InBounds(col, row, NColumns, NRows)
    requires -1 <= dCol <= 1 && -1 <= dRow <= 1
    requires r == g[col := g[col][row := g[col][row].(particles := Pulled(g, col, row, pairForce, 3 * (dCol + 1) + (dRow + 1)))]]
    ensures r' == g[col := g[col][row := g[col][row].(particles := Pulled(g, col, row, pairForce, 3 * (dCol + 1) + (dRow + 1) + 1))]]
  {
    r' := r;
    ghost var d := 3 * (dCol + 1) + (dRow + 1);
    OffsetOf(dCol, dRow);
    var neighborCol := col + dCol;
    var neighborRow := row + dRow;
    if neighborCol < 0 || neighborCol >= NColumns || neighborRow < 0 || neighborRow >= NRows {
      NoPullNoChange(g, col, row, pairForce, d);
      return;
    }
    var neighbour := r[neighborCol][neighborRow].particles;
    assert SameBodies(neighbour, g[neighborCol][neighborRow].particles);
    if |neighbour| == 0 {
      NoPullNoChange(g, col, row, pairForce, d);
      return;
    }
    var updated := PullCell(r[col][row].particles, neighbour, neighborCol == col && neighborRow == row, pairForce);
    PullCellIsStep(g, col, row, pairForce, d, neighbour, updated);
    r' := r[col := r[col][row := r[col][row].(particles := updated)]];
    ReplaceCopies(g, r, col, row, Pulled(g, col, row, pairForce, d), updated);
  }

  /** A direction that is outside the grid or reaches an empty cell adds nothing. */
  lemma NoPullNoChange(g: seq<seq<GridCell>>, col: int, row: int, pairForce: (real, Vec2, real, Vec2) -> Vec2, d: nat)
    requires Shaped(g) && InBounds(col, row, NColumns, NRows)
    requires var nc, nr := col + Offset(d).0, row + Offset(d).1;
      !InBounds(nc, nr, NColumns, NRows) || |g[nc][nr].particles| == 0
    ensures Pulled(g, col, row, pairForce, d + 1) == Pulled(g, col, row, pairForce, d)
  {
    PulledNext(g, col, row, pairForce, d);
    forall i | 0 <= i < |g[col][row].particles|
      ensures NeighbourPull(g, col, row, i, d, pairForce) == Zero
    {
    }
  }

  /** The particle1 loop over an in-bounds neighbour adds exactly that direction's pull. */
  lemma PullCellIsStep(g: seq<seq<GridCell>>, col: int, row: int, pairForce: (real, Vec2, real, Vec2) -> Vec2, d: nat,
                       neighbour: seq<ParticleState>, updated: seq<ParticleState>)
    requires Shaped(g) && InBounds(col, row, NColumns, NRows)
    requires var nc, nr := col + Offset(d).0, row + Offset(d).1;
      InBounds(nc, nr, NColumns, NRows) && SameBodies(neighbour, g[nc][nr].particles)
    requires var before := Pulled(g, col, row, pairForce, d);
      var same := Offset(d) == (0, 0);
      |updated| == |before| &&
      forall i :: 0 <= i < |before| ==>
        updated[i] == before[i].(force := Add(before[i].force,
          PairSum(before[i], neighbour, if same then i else -1, pairForce, |neighbour|)))
    ensures updated == Pulled(g, col, row, pairForce, d + 1)
  {
    var nc, nr := col + Offset(d).0, row + Offset(d).1;
    var before := Pulled(g, col, row, pairForce, d);
    PulledNext(g, col, row, pairForce, d);
    forall i | 0 <= i < |before|
      ensures updated[i] == Pulled(g, col, row, pairForce, d + 1)[i]
    {
      var skip := if nc == col && nr == row then i else -1;
      PairSumIgnoresForces(before[i], g[col][row].particles[i], neighbour, g[nc][nr].particles,
                           skip, pairForce, |neighbour|);
    }
  }

  /** Replacing the copies of cell (col, row) in the working grid. */
  lemma ReplaceCopies(g: seq<seq<GridCell>>, r: seq<seq<GridCell>>, col: int, row: int,
                      before: seq<ParticleState>, after: seq<ParticleState>)
    requires Shaped(g) && InBounds(col, row, NColumns, NRows)
    requires r == g[col := g[col][row := g[col][row].(particles := before)]]
    ensures r[col := r[col][row := r[col][row].(particles := after)]] ==
      g[col := g[col][row := g[col][row].(particles := after)]]
  {
    var cellAfter := g[col][row].(particles := after);
    assert r[col][row].(particles := after) == cellAfter;
    assert r[col][row := cellAfter] == g[col][row := cellAfter];
  }

  /** With no direction yet, the copies are as they were, and the grid is unchanged. */
  lemma PulledNone(g: seq<seq<GridCell>>, col: int, row: int, pairForce: (real, Vec2, real, Vec2) -> Vec2)
    requires Shaped(g) && InBounds(col, row, NColumns, NRows)
    ensures g[col := g[col][row := g[col][row].(particles := Pulled(g, col, row, pairForce, 0))]] == g
  {
    assert Pulled(g, col, row, pairForce, 0) == g[col][row].particles;
    assert g[col][row := g[col][row]] == g[col];
  }

  /** Direction 3 * (dCol + 1) + (dRow + 1) is the offset (dCol, dRow). */
  lemma OffsetOf(dCol: int, dRow: int)
    requires -1 <= dCol <= 1 && -1 <= dRow <= 1
    ensures Offset(3 * (dCol + 1) + (dRow + 1)) == (dCol, dRow)
  {
    var d := 3 * (dCol + 1) + (dRow + 1);
    assert d / 3 == dCol + 1 && d % 3 == dRow + 1;
  }

  /** One more direction adds that direction's pull to every copy. */
  lemma PulledNext(g: seq<seq<GridCell>>, col: int, row: int, pairForce: (real, Vec2, real, Vec2) -> Vec2, d: nat)
    requires Shaped(g) && InBounds(col, row, NColumns, NRows)
    ensures forall i :: 0 <= i < |g[col][row].particles| ==>
      Pulled(g, col, row, pairForce, d + 1)[i] ==
      Pulled(g, col, row, pairForce, d)[i].(force :=
        Add(Pulled(g, col, row, pairForce, d)[i].force, NeighbourPull(g, col, row, i, d, pairForce)))
  {
  }

  /** The pull depends on masses and positions only, never on the forces. */
  lemma {:induction false} PairSumIgnoresForces(p1: ParticleState, q1: ParticleState, a: seq<ParticleState>,
                                                b: seq<ParticleState>, skip: int,
                                                pairForce: (real, Vec2, real, Vec2) -> Vec2, j: nat)
    requires p1.mass == q1.mass && p1.position == q1.position
    requires SameBodies(a, b) && j <= |a|
    ensures PairSum(p1, a, skip, pairForce, j) == PairSum(q1, b, skip, pairForce, j)
  {
    if j > 0 {
      PairSumIgnoresForces(p1, q1, a, b, skip, pairForce, j - 1);
    }
  }

  /** The pulls on a cell's copies are the same in two grids that differ only in forces. */
  lemma {:induction false} DirSumIgnoresForces(g: seq<seq<GridCell>>, h: seq<seq<GridCell>>, col: int, row: int,
                                               i: nat, d: nat, pairForce: (real, Vec2, real, Vec2) -> Vec2)
    requires SameGridBodies(g, h) && InBounds(col, row, NColumns, NRows) && i < |g[col][row].particles|
    ensures DirSum(g, col, row, i, d, pairForce) == DirSum(h, col, row, i, d, pairForce)
  {
    if d > 0 {
      DirSumIgnoresForces(g, h, col, row, i, d - 1, pairForce);
      var nc, nr := col + Offset(d - 1).0, row + Offset(d - 1).1;
      if InBounds(nc, nr, NColumns, NRows) {
        var skip := if nc == col && nr == row then i else -1;
        PairSumIgnoresForces(g[col][row].particles[i], h[col][row].particles[i],
                             g[nc][nr].particles, h[nc][nr].particles, skip, pairForce, |g[nc][nr].particles|);
      }
    }
  }

  /**
   * A cell whose own copies are unchanged is pulled the same in two grids
   * that differ only in forces: the earlier cells' updates do not affect it.
   */
  lemma PulledIgnoresForces(g: seq<seq<GridCell>>, h: seq<seq<GridCell>>, col: int, row: int,
                            pairForce: (real, Vec2, real, Vec2) -> Vec2, d: nat)
    requires SameGridBodies(g, h) && InBounds(col, row, NColumns, NRows)
    requires g[col][row] == h[col][row]
    ensures Pulled(g, col, row, pairForce, d) == Pulled(h, col, row, pairForce, d)
  {
    forall i | 0 <= i < |g[col][row].particles|
      ensures DirSum(g, col, row, i, d, pairForce) == DirSum(h, col, row, i, d, pairForce)
    {
      DirSumIgnoresForces(g, h, col, row, i, d, pairForce);
    }
  }

  /** c is within one of col. */
  predicate Near(c: int, col: int) {
    col - 1 <= c <= col + 1
  }

  /** Every cell centre truncates back into its own cell. */
  lemma CentreInOwnCell(col: int, row: int)
    requires InBounds(col, row, NColumns, NRows)
    ensures Placed(Centre(col, row)) && CellOf(Centre(col, row)) == (col, row)
  {
    CentreIndex(col);
    CentreIndex(row);
  }

  /** (i * cellSize + cellSize / 2) / cellSize is i + 1/2, which truncates to i. */
  lemma CentreIndex(i: int)
    requires i >= 0
    ensures CellIndex((i * CellSize) as real + CellSize as real / 2.0, CellSize) == i
  {
    var x := (i * CellSize) as real + CellSize as real / 2.0;
    var q := x / CellSize as real;
    assert q * CellSize as real == x;
    assert q == i as real + 0.5;
  }

  /**
   * Which particles the gravity grid keeps: -cellSize < x < nColumns *
   * cellSize and -cellSize < y < nRows * cellSize. With a 500-unit cell the
   * grid is 3 by 2 cells, so a particle at x in [1500, 1920) or y in [1000, 1080)
   * of the window is in no cell.
   */
  lemma PlacedIff(p: Vec2)
    ensures NColumns == 3 && NRows == 2
    ensures Placed(p) <==>
      -(CellSize as real) < p.x < (NColumns as real) * (CellSize as real) &&
      -(CellSize as real) < p.y < (NRows as real) * (CellSize as real)
  {
    CellIndexInRange(p.x, CellSize, NColumns);
    CellIndexInRange(p.y, CellSize, NRows);
  }

  /** A copy is in a cell's list exactly when it is one of the particles that truncate into that cell. */
  lemma {:induction false} KeptMembership(s: seq<ParticleState>, n: nat, col: int, row: int, x: ParticleState)
    requires n <= |s|
    ensures x in Kept(s, n, col, row) <==>
      exists k :: 0 <= k < n && s[k] == x && Placed(s[k].position) && CellOf(s[k].position) == (col, row)
  {
    if n > 0 {
      KeptMembership(s, n - 1, col, row, x);
      if x in Kept(s, n, col, row) && x !in Kept(s, n - 1, col, row) {
        assert s[n - 1] == x;
      }
    }
  }

  /** Each cell gets one copy per particle that truncates into it, and no particle lands in two cells. */
  lemma {:induction false} KeptLength(s: seq<ParticleState>, n: nat, col: int, row: int)
    requires n <= |s|
    ensures |Kept(s, n, col, row)| == |set k | 0 <= k < n && Placed(s[k].position) && CellOf(s[k].position) == (col, row)|
  {
    var ks := set k | 0 <= k < n && Placed(s[k].position) && CellOf(s[k].position) == (col, row);
    if n > 0 {
      KeptLength(s, n - 1, col, row);
      var prev := set k | 0 <= k < n - 1 && Placed(s[k].position) && CellOf(s[k].position) == (col, row);
      if Placed(s[n - 1].position) && CellOf(s[n - 1].position) == (col, row) {
        assert n - 1 !in prev;
        assert ks == prev + {n - 1};
      } else {
        assert ks == prev;
      }
    } else {
      assert ks == {};
    }
  }

  /** The pull of a cell on one of its own copies is the brute-force pull over that cell, itself left out. */
  lemma {:induction false} OwnCellIsBruteForce(list: seq<ParticleState>, i: nat, j: nat,
                                               pairForce: (real, Vec2, real, Vec2) -> Vec2)
    requires i < |list| && j <= |list|
    ensures PairSum(list[i], list, i, pairForce, j) == Solver.PartialForce(list, i, j, pairForce)
  {
    if j > 0 {
      OwnCellIsBruteForce(list, i, j - 1, pairForce);
    }
  }

  /**
   * When every other in-bounds cell within one of (col, row) is empty, the
   * grid pulls each copy exactly as the brute-force pass of the solver would
   * pull it within that cell's list.
   */
  lemma LoneCellIsBruteForce(g: seq<seq<GridCell>>, col: int, row: int, i: nat,
                             pairForce: (real, Vec2, real, Vec2) -> Vec2)
    requires Shaped(g) && InBounds(col, row, NColumns, NRows) && i < |g[col][row].particles|
    requires forall c, r :: InBounds(c, r, NColumns, NRows) && Near(c, col) && Near(r, row) && !(c == col && r == row) ==>
      g[c][r].particles == []
    ensures DirSum(g, col, row, i, Directions, pairForce) == Solver.NetForce(g[col][row].particles, i, pairForce)
  {
    var list := g[col][row].particles;
    OwnCellIsBruteForce(list, i, |list|, pairForce);
    LoneCellPrefix(g, col, row, i, pairForce, Directions);
  }

  lemma {:induction false} LoneCellPrefix(g: seq<seq<GridCell>>, col: int, row: int, i: nat,
                                          pairForce: (real, Vec2, real, Vec2) -> Vec2, d: nat)
    requires Shaped(g) && InBounds(col, row, NColumns, NRows) && i < |g[col][row].particles| && d <= 9
    requires forall c, r :: InBounds(c, r, NColumns, NRows) && Near(c, col) && Near(r, row) && !(c == col && r == row) ==>
      g[c][r].particles == []
    ensures DirSum(g, col, row, i, d, pairForce) ==
      if d <= 4 then Zero
      else PairSum(g[col][row].particles[i], g[col][row].particles, i, pairForce, |g[col][row].particles|)
  {
    if d > 0 {
      LoneCellPrefix(g, col, row, i, pairForce, d - 1);
      LoneNeighbourPull(g, col, row, i, pairForce, d - 1);
    }
  }

  /** Of the nine offsets around a lone cell, only the middle one (d = 4) pulls. */
  lemma LoneNeighbourPull(g: seq<seq<GridCell>>, col: int, row: int, i: nat,
                          pairForce: (real, Vec2, real, Vec2) -> Vec2, d: nat)
    requires Shaped(g) && InBounds(col, row, NColumns, NRows) && i < |g[col][row].particles| && d < 9
    requires forall c, r :: InBounds(c, r, NColumns, NRows) && Near(c, col) && Near(r, row) && !(c == col && r == row) ==>
      g[c][r].particles == []
    ensures NeighbourPull(g, col, row, i, d, pairForce) ==
      if d == 4 then PairSum(g[col][row].particles[i], g[col][row].particles, i, pairForce, |g[col][row].particles|)
      else Zero
  {
    var dc, dr := d / 3 - 1, d % 3 - 1;
    assert Offset(d) == (dc, dr);
    assert -1 <= dc <= 1 && -1 <= dr <= 1;
    assert (dc == 0 && dr == 0) <==> d == 4;
  }
}
