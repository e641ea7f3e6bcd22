# Spatial bookkeeping of the magnet-simulation N-body simulator

This project is a Dafny model of the parts of the simulator that decide which
particles interact and what each step does to their state. Forces are
arithmetic on floats and are kept abstract here. The parts modelled are:

- **Pointer quadtree** (`include/BarnesHut.hpp`), module `BarnesHut`.
  - A node is a half-open square, either a leaf holding at most one particle
    or a branch with four children. It carries the total mass and the centre
    of mass of what lies below it.
  - Nodes are a recursive datatype. Insertion, subdivision, clearing and the
    depth-first mass pass return the updated node.
  - The `QuadTree` class owns the root and replaces it in place.
- **Arena quadtree** (`include/BarnesHut.old.hpp`), module `ArenaQuadtree`.
  - Nodes live in a vector and are addressed by index. A branch's
    `children` index names the first of four consecutive slots, and a
    `parents` vector records every subdivided node in order.
  - `Quadtree` is a class whose `nodes` and `parents` fields are sequences.
    The methods reassign them, as `clear`, `subdivide`, `insert` and
    `propagate` do.
  - Its invariants are `Shape` and `ArenaOk`:
    - `Shape` is the index layout: one root plus four slots per parent, with
      every link pointing forward.
    - `ArenaOk` is `Shape` plus the geometry: each child holds its
      parent's quadrant, and each occupied leaf holds its point.
- **Uniform grids** (`include/CollisionGrid.hpp`, `include/GravityGrid.hpp`),
  modules `Grid`, `CollisionGrid` and `GravityGrid`.
  - Particles go into buckets by truncating `position / cellSize`.
  - The 3×3 neighbourhood scan hands each pair to the collision solver, or
    adds pair forces to the grid's own copies.
- **Worker ranges** (`WorkSplit`): the range arithmetic the threaded loops
  use to split rows or particles among workers.
- **Collision response** (`include/Solver.hpp`, `include/collision_math.hpp`),
  modules `Collision`, `Solver` and `CollisionMath`.
  - It covers the early exits, the mass-weighted damped impulse exchange and
    the symmetric positional correction.
  - The abstract brute-force gravity pass is also here.
- **Particles and vectors** (`include/Particle.hpp`, `include/Vec2.hpp`,
  `include/vector_math_utils.hpp`), modules `Particles`, `Vectors` and
  `VectorMath`.
  - `Particle` is a class with mutable fields. `ParticleStore` is the static
    particle vector.
  - The vector operations are functions. `Vec2`'s throwing divisions and
    `normalize` return a `Result`.

Modelling choices:

- Coordinates and masses are `real`s.
- A square root is never computed. Where the source takes one, the model
  receives the distance as an input. When a property depends on it,
  `IsMagnitude(v, m)` (`m >= 0 && m * m == |v|²`) ties it to the vector.
- The pair force of gravity is a function parameter
  `pairForce(m1, p1, m2, p2)`.
- The constants of `include/Config.hpp` are in module `Config`.
- The grid dimensions are literals: 960 × 540 cells of side 2 for
  collisions, and 3 × 2 cells of side 500 for gravity. `GridSize` proves
  that they are the source's integer divisions.
- With the configured window (1920 × 1080) the gravity grid covers only
  x < 1500 and y < 1000. Particles beyond that get no grid gravity at all
  (`GravityGrid.PlacedIff`).
- Every particle the input handler creates starts at the mouse position
  (`include/InputManger.hpp:45-49`), so new particles coincide. For two
  coincident particles `Node::insert` subdivides without bound, so on the
  program's own input the pointer quadtree's insertion does not end.
  `BarnesHut.QuadTree.Insert` requires distinct positions for this reason.
- `include/BarnesHut.old.hpp` does not compile as written, for example
  `is_branch` against `isBranch`, `Vec2::zero`, and `quad.subdivide(quads)`.
  The model follows the evident intent: `isBranch`/`findQuadrant`, the zero
  vector, and the four quadrants of `subdivide()`.

## Model

| member | source | states |
|---|---|---|
| Vectors.Quotient | include/Particle.hpp:31 | dividing by a nonzero scalar is undone by scaling back: `Scale(r, s) == a` |
| Vectors.Add | include/Vec2.hpp:9-11 | componentwise sum; it has no contract of its own, and `Sub` and `AddSubInverse` state how it and `-` undo each other |
| Vectors.Sub | include/Vec2.hpp:13-15 | the difference added to the subtrahend gives the minuend |
| Vectors.Mul | include/Vec2.hpp:18-20 | componentwise product, not a dot product; it has no contract of its own, and `Div` and `DivideVec` are stated as its inverses |
| Vectors.Scale | include/Vec2.hpp:22-24 | both components times the scalar; it has no contract of its own, and `Quotient` and `DivScalar` are stated as its inverses |
| Vectors.Div | include/Vec2.hpp:26-38 | `/` by a vector fails with DivisionByZero exactly when either divisor component is zero; otherwise the result times the divisor, componentwise, is the dividend |
| Vectors.DivScalar | include/Vec2.hpp:40-45 | `/` by a float fails exactly when the divisor is zero; otherwise scaling the result back gives the dividend |
| Vectors.Normalize | include/Vec2.hpp:53-58 | `normalize` fails with ZeroVectorNormalization exactly when the magnitude is zero; otherwise the result scaled by the magnitude is the vector |
| Vectors.NormalizeIsUnit | include/Vec2.hpp:53-58 | a successful `normalize` returns this / magnitude, and that vector has length one |
| Vectors.UnitAfterDivision | include/Vec2.hpp:48-58 | a vector divided by its nonzero magnitude has squared length 1 |
| Vectors.AddSubInverse | include/Vec2.hpp:9-15 | componentwise `-` undoes `+` and the other way round |
| VectorMath.SquareVec | include/vector_math_utils.hpp:7-12 | squares both components of the argument in place and returns that same object |
| VectorMath.ScaleVec | include/vector_math_utils.hpp:14-19 | multiplies both components of the argument by the scaler in place and returns that same object |
| VectorMath.DivideVec | include/vector_math_utils.hpp:21-23 | for nonzero divisor components, the quotient multiplied componentwise by the divisor is the dividend |
| VectorMath.MultiplyVec | include/vector_math_utils.hpp:25-27 | the componentwise product; it has no contract of its own, and `MultiplyDivideInverse` proves `divideVec` undoes it |
| VectorMath.DotProduct | include/vector_math_utils.hpp:29-31 | x1·x2 + y1·y2; it has no contract of its own, and `DotProductSymmetric` proves it symmetric and the sum of `multiplyVec`'s components |
| VectorMath.DivideVecAgreesWithDiv | include/vector_math_utils.hpp:21-23 | the guarded `Vec2::operator/` succeeds exactly when the divisor components are nonzero, and then equals the unguarded `divideVec` |
| VectorMath.MultiplyDivideInverse | include/vector_math_utils.hpp:21-27 | `multiplyVec` and `divideVec` by the same nonzero vector undo each other, in either order |
| VectorMath.DotProductSymmetric | include/vector_math_utils.hpp:25-31 | `dotProduct` is symmetric and is the sum of the components of `multiplyVec` |
| Particles.Particle.constructor | include/Particle.hpp:20-28 | stores the given position and velocity, and as `radius` the radius the shape is given; force starts at zero; mass is 3.14159·r² |
| Particles.MassOfRadius | include/Particle.hpp:27 | 3.14159·r², the mass the constructor derives; it has no contract of its own, and the constructor's `ensures` uses it |
| Particles.Particle.Update | include/Particle.hpp:30-35 | velocity gains force / mass, then position gains the new velocity (no time step); force, mass and radius are unchanged; the new state is `Stepped` of the old one |
| Particles.Stepped | include/Particle.hpp:30-35 | the state after `update`: the velocity change times the mass is the force, the position change is the new velocity, and force, mass and radius are kept |
| Particles.ParticleStore.constructor | include/Particle.hpp:10 | the static particle vector starts empty |
| Particles.ParticleStore.Add | include/Particle.hpp:50-52 | `add` appends fresh copies of the given particles, in order; the length grows by their count and the particles already stored keep their values |
| Collision.Respond | include/Solver.hpp:13-46 | a response changes only velocities and positions; it returns both bodies unchanged when they are out of contact or separating |
| Collision.ScalersSumToTwo | include/Solver.hpp:32-33 | for masses that do not cancel, `massScaler1 + massScaler2 == 2` |
| Collision.ScalersBalance | include/Solver.hpp:32-33 | `m1 · massScaler1 == m2 · massScaler2` |
| Collision.ExchangeComponent | include/Solver.hpp:35-39 | on one axis, the damped impulse exchange with balanced scalers keeps `m1 v1 + m2 v2` |
| Collision.ExchangeKeepsMomentum | include/Solver.hpp:35-39 | the damped impulse exchange with balanced scalers keeps the total momentum vector |
| Collision.RespondConservesMomentum | include/Solver.hpp:35-39 | every response conserves `m1 v1 + m2 v2`, whatever the damping |
| Collision.RespondKeepsPositionSum | include/Solver.hpp:41-45 | the positional correction is equal and opposite: `p1 + p2` is unchanged |
| Collision.RespondLeavesTouching | include/Solver.hpp:41-45 | after an effective response, `p1 - p2` is the normal scaled by `sumOfRadii` |
| Collision.RespondThenNoOp | include/Solver.hpp:16-45 | given the true distance, the bodies end exactly `sumOfRadii` apart, and an immediate second response changes nothing |
| Solver.ResolveCollision | include/Solver.hpp:13-46 | `Solver::resolve_collision` updates both bodies exactly as `Respond` says, with the configured damping 0.2 |
| Solver.CalculateGravity | include/Solver.hpp:49-63 | with G = 0 no particle changes; otherwise each particle's force becomes the sum of the pair force over every other particle, and nothing else changes |
| Solver.NetForce | include/Solver.hpp:52-62 | the force the brute-force pass gives body i: the pair force of every other body, summed in index order; it has no contract of its own, and `CalculateGravity`'s loops are proved against it |
| Solver.PartialForce | include/Solver.hpp:55-61 | the inner loop's sum after the bodies below j, skipping body i; it has no contract of its own, and `NoSelfForce` and `CalculateGravity`'s inner invariant are stated with it |
| Solver.NoSelfForce | include/Solver.hpp:55-56 | the brute-force sum never pairs a body with itself: when the pair force from every other body is zero, so is the total |
| CollisionMath.ResolveCollision | include/collision_math.hpp:24-66 | the free `resolve_collision` updates both bodies as `Respond` says, with `sumOfRadii` the sum of the two radii and the local damping 0.9 |
| WorkSplit.FloorSplit | include/CollisionGrid.hpp:98-103 | worker i gets a range inside [0, n); the first starts at 0 and the last ends at n |
| WorkSplit.FloorSplitContiguous | include/CollisionGrid.hpp:100-102 | consecutive worker ranges meet: one ends where the next starts |
| WorkSplit.FloorSplitDisjoint | include/CollisionGrid.hpp:100-102 | ranges of different workers do not overlap |
| WorkSplit.FloorSplitCoversUpTo | include/CollisionGrid.hpp:100-102 | every index below the end of worker i's range lies in the range of some worker at or below i |
| WorkSplit.FloorSplitPartitions | include/CollisionGrid.hpp:98-103 | every index in [0, n) lies in the range of exactly one worker; the same arithmetic splits particles in include/Solver.hpp:70-97 and include/BarnesHut.hpp:93-97 |
| WorkSplit.InsertWorkers | include/BarnesHut.hpp:91 | `_insert` uses min(hardware threads, particle count) workers |
| WorkSplit.CeilChunk | include/BarnesHut.hpp:297 | `chunkSize` is the ceiling of n / t: t chunks cover n, and the chunk is positive when n is |
| WorkSplit.CeilSplit | include/BarnesHut.hpp:307-313 | thread t's range starts at t · chunkSize, ends at or before n and spans at most one chunk |
| WorkSplit.CeilSplitDisjoint | include/BarnesHut.hpp:307-313 | ranges of different threads do not overlap |
| WorkSplit.CeilSplitPartitions | include/BarnesHut.hpp:307-313 | every particle index lies in exactly one thread's range, which is non-empty, so that thread is started |
| Grid.Trunc | include/CollisionGrid.hpp:34-35 | `static_cast<int>` truncates toward zero: floor for non-negative values, ceiling for negative ones |
| Grid.CellIndex | include/CollisionGrid.hpp:34-35 | the column or row `static_cast<int>(coord / cellSize)`; it has no contract of its own, and `CellIndexInRange`, `NegativeSliverToZero` and `CellIndexBrackets` state which index a coordinate gets |
| Grid.CellIndexInRange | include/CollisionGrid.hpp:34-37 | a coordinate gets an index in [0, n) exactly when it lies strictly between -cellSize and n · cellSize |
| Grid.NegativeSliverToZero | include/CollisionGrid.hpp:34-37 | coordinates in (-cellSize, 0) go to index 0 instead of being excluded |
| Grid.CellIndexBrackets | include/CollisionGrid.hpp:34-35 | a non-negative coordinate lies in the cell [i · cellSize, (i + 1) · cellSize) of its index i |
| Grid.TruncInRange | include/CollisionGrid.hpp:34-37 | truncation lands in [0, n) exactly for values strictly between -1 and n |
| CollisionGrid.GridSize | include/CollisionGrid.hpp:9-11 | the literal grid dimensions are windowWidth / cellSize and windowHeight / cellSize |
| CollisionGrid.CollisionGrid.constructor | include/CollisionGrid.hpp:15-17 | `initialize` yields nColumns columns of nRows empty cells |
| CollisionGrid.CollisionGrid.AssignParticlesToGrid | include/CollisionGrid.hpp:24-41 | every cell is emptied first, then holds, in particle order, the indices of the particles whose truncated cell is that one (`IsAssignment`) |
| CollisionGrid.CollisionGrid.CheckCollisionsInGrid | include/CollisionGrid.hpp:43-66 | the particle states end as the calls the scan lists (`ScanPairs`), applied in scan order, leave them |
| CollisionGrid.ResolveAgainst | include/CollisionGrid.hpp:56-60 | the innermost loop calls `resolve_collision` for particle1 with each other entry of one cell, in order |
| CollisionGrid.ResolveDirection | include/CollisionGrid.hpp:51-61 | one direction calls `resolve_collision` with the neighbour cell's other particles when that cell is in bounds, and does nothing otherwise |
| CollisionGrid.ResolveAround | include/CollisionGrid.hpp:50-62 | the nine-direction loop makes the calls of each direction in table order |
| CollisionGrid.ResolveCell | include/CollisionGrid.hpp:49-63 | the loop over a cell's particles makes each one's nine-direction calls in turn |
| CollisionGrid.ResolveColumn | include/CollisionGrid.hpp:48-64 | the loop over a column's rows makes each cell's calls in turn |
| CollisionGrid.ResolvePair | include/CollisionGrid.hpp:58 | one call of `Solver::resolve_collision` on two distinct particles is one `Step` on the states |
| CollisionGrid.Step | include/CollisionGrid.hpp:58 | a call keeps the number of particles and every particle's mass |
| CollisionGrid.ApplyAll | include/CollisionGrid.hpp:43-66 | a sequence of calls keeps the number of particles and every particle's mass |
| CollisionGrid.ApplyAllAppend | include/CollisionGrid.hpp:43-66 | making the calls of xs and then those of ys is making the calls of xs + ys |
| CollisionGrid.Partners | include/CollisionGrid.hpp:56-60 | every call of the innermost loop pairs particle1 with an entry of the cell other than itself |
| CollisionGrid.PartnersMembership | include/CollisionGrid.hpp:56-60 | particle1 is paired with exactly the other entries of the cell |
| CollisionGrid.Around1Membership | include/CollisionGrid.hpp:51-60 | direction dir pairs particle1 with exactly the other particles of the offset cell, when that cell is in bounds |
| CollisionGrid.OffsetsListed | include/CollisionGrid.hpp:44-45 | the dx/dy tables list every offset in {-1, 0, 1}² and nothing else |
| CollisionGrid.AroundPrefix | include/CollisionGrid.hpp:50-62 | the first d directions produce exactly the pairs of those directions |
| CollisionGrid.AroundMembership | include/CollisionGrid.hpp:50-62 | the nine directions pair particle1 with exactly the other particles of the in-bounds cells within one column and one row |
| CollisionGrid.AroundSound | include/CollisionGrid.hpp:50-62 | a pair produced by one direction joins particle1 to another particle of an in-bounds neighbouring cell |
| CollisionGrid.AroundComplete | include/CollisionGrid.hpp:50-62 | every other particle of an in-bounds neighbouring cell is reached by some direction |
| CollisionGrid.CellPrefix | include/CollisionGrid.hpp:49-63 | the first k particles of a cell produce exactly the nine-direction pairs of those particles |
| CollisionGrid.ColumnPrefix | include/CollisionGrid.hpp:48-64 | the first rows of a column produce exactly the pairs of those cells |
| CollisionGrid.ScanPrefix | include/CollisionGrid.hpp:47-65 | the first columns produce exactly the pairs of those columns |
| CollisionGrid.ScanCells | include/CollisionGrid.hpp:47-65 | the whole scan produces exactly the pairs of every cell's own scan |
| CollisionGrid.ScanMembership | include/CollisionGrid.hpp:47-65 | the scan's calls are exactly the ordered pairs (a, b) with a ≠ b, a in some cell, and b in that cell or an in-bounds neighbouring cell |
| CollisionGrid.ScanFindsNeighbours | include/CollisionGrid.hpp:24-66 | after assignment the scan resolves exactly the ordered pairs of distinct particles that the grid keeps and whose cells are within one column and one row |
| CollisionGrid.ScanSymmetric | include/CollisionGrid.hpp:43-66 | after assignment the scan resolves (a, b) exactly when it resolves (b, a) |
| CollisionGrid.AssignmentIndicesBelow | include/CollisionGrid.hpp:33-40 | every index an assignment stores names a particle |
| CollisionGrid.BucketMembership | include/CollisionGrid.hpp:33-40 | particle k is in a bucket exactly when the grid keeps it and it truncates into that cell |
| CollisionGrid.BucketOrdered | include/CollisionGrid.hpp:33-40 | buckets list particle indices in strictly increasing order: input order, no repeats |
| CollisionGrid.AssignmentPlacesOnce | include/CollisionGrid.hpp:33-40 | after assignment a kept particle is in the cell of its position and in no other; any other particle is in none |
| CollisionGrid.PlacedIff | include/CollisionGrid.hpp:34-37 | the grid keeps exactly the particles with -cellSize < x < nColumns · cellSize and -cellSize < y < nRows · cellSize |
| GravityGrid.GridSize | include/GravityGrid.hpp:16-18 | the literal grid dimensions are windowWidth / cellSize and windowHeight / cellSize |
| GravityGrid.GravityGrid.constructor | include/GravityGrid.hpp:22-39 | nColumns columns of nRows cells, each with zero mass, no particles, and position (col · cellSize + cellSize / 2, row · cellSize + cellSize / 2) |
| GravityGrid.GravityGrid.AssignParticlesToGrid | include/GravityGrid.hpp:41-59 | the caller's particles are unchanged; each cell keeps its position, holds copies of the particles that truncate into it in input order, and its mass is the sum of theirs |
| GravityGrid.GravityGrid.CalculateGravity | include/GravityGrid.hpp:71-112 | each cell's copies end with the pulls of the nine directions added (`Pulled` of the grid before the pass); cell masses and positions are unchanged |
| GravityGrid.Pulled | include/GravityGrid.hpp:96-107 | the pulled copies have the same masses and positions as the cell's copies; only forces change |
| GravityGrid.ClearCells | include/GravityGrid.hpp:42-47 | the first loop gives every cell zero mass and no copies, keeping its position |
| GravityGrid.Deposit | include/GravityGrid.hpp:50-57 | a particle that lands inside the grid adds a copy at the end of its cell's list and its mass to the cell's mass; every other cell, and every cell for a particle outside the grid, is unchanged |
| GravityGrid.DepositAll | include/GravityGrid.hpp:49-58 | after the second loop every cell holds the copies of the particles that land in it, with their mass (`KeptUpTo`) |
| GravityGrid.DepositKeeps | include/GravityGrid.hpp:49-58 | depositing particle n into a grid holding the first n particles yields a grid holding the first n + 1 |
| GravityGrid.TotalMassSnoc | include/GravityGrid.hpp:56 | appending a copy adds its mass to the list's total |
| GravityGrid.Pull | include/GravityGrid.hpp:97-106 | the particle2 loop adds to particle1's force the pair force of every neighbour entry except itself |
| GravityGrid.PullCell | include/GravityGrid.hpp:96-107 | the particle1 loop gives each copy the pull of the neighbour's copies, leaving itself out when the neighbour is its own cell |
| GravityGrid.PullAround | include/GravityGrid.hpp:74-109 | the dCol/dRow loops for a cell replace its copies by `Pulled` over all nine directions; empty cells, out-of-bounds neighbours and empty neighbours are skipped |
| GravityGrid.PullDirection | include/GravityGrid.hpp:82-107 | the body of the dRow loop adds exactly one more direction to the copies of the cell |
| GravityGrid.NoPullNoChange | include/GravityGrid.hpp:86-93 | a direction outside the grid or reaching an empty cell adds nothing |
| GravityGrid.PullCellIsStep | include/GravityGrid.hpp:96-107 | the particle1 loop over an in-bounds neighbour adds exactly that direction's pull |
| GravityGrid.OffsetOf | include/GravityGrid.hpp:80-83 | the loop counters (dCol, dRow) in {-1, 0, 1}² are direction 3(dCol + 1) + (dRow + 1) |
| GravityGrid.PulledNext | include/GravityGrid.hpp:80-109 | one more direction adds that neighbour's pull to every copy's force |
| GravityGrid.PairSumIgnoresForces | include/GravityGrid.hpp:99-104 | the pull depends only on masses and positions, never on forces |
| GravityGrid.DirSumIgnoresForces | include/GravityGrid.hpp:72-111 | the pulls on a cell are the same in two grids that differ only in forces |
| GravityGrid.PulledIgnoresForces | include/GravityGrid.hpp:72-111 | updating earlier cells in place does not change the pull a later cell gets |
| GravityGrid.CentreInOwnCell | include/GravityGrid.hpp:29-38 | every cell centre lies inside the grid and truncates back into its own cell |
| GravityGrid.CentreIndex | include/GravityGrid.hpp:33-35 | (i · cellSize + cellSize / 2) / cellSize truncates to i |
| GravityGrid.PlacedIff | include/GravityGrid.hpp:50-53 | the grid is 3 × 2 cells and keeps exactly the particles with -cellSize < x < 1500 and -cellSize < y < 1000 |
| GravityGrid.KeptMembership | include/GravityGrid.hpp:49-58 | a state is in a cell's list exactly when it is one of the particles that truncate into that cell |
| GravityGrid.KeptLength | include/GravityGrid.hpp:49-58 | each cell holds one copy per particle that truncates into it |
| GravityGrid.OwnCellIsBruteForce | include/GravityGrid.hpp:96-98 | a cell's pull on one of its own copies is the brute-force sum of `Solver::_calculateGravity` over that cell's list |
| GravityGrid.LoneCellIsBruteForce | include/GravityGrid.hpp:80-107 | when every neighbouring cell is empty, the grid's pull on a copy is exactly the brute-force pull within its own cell |
| GravityGrid.LoneCellPrefix | include/GravityGrid.hpp:80-107 | for a lone cell, the first d directions add nothing before the middle one and the own-cell pull from it on |
| GravityGrid.LoneNeighbourPull | include/GravityGrid.hpp:80-93 | of the nine offsets around a lone cell, only the middle one pulls |
| Halving.LevelsDecrease | include/BarnesHut.hpp:125-142 | halving a square at least twice as wide as the points' separation lowers the number of halvings left, which bounds the re-insertion depth |
| BarnesHut.ContainsHalfOpen | include/BarnesHut.hpp:71-76 | a node contains its top-left corner exactly when its side is positive, and never points on its right or bottom edge |
| BarnesHut.NewNode | include/BarnesHut.hpp:30-31 | `Node(position, size)`: a leaf over the given square with no particle and no children, holding no particle below it |
| BarnesHut.Contains | include/BarnesHut.hpp:71-76 | the half-open square test; only a square of positive side contains any point |
| BarnesHut.Store | include/BarnesHut.hpp:118-122 | the leaf takes the particle, its position and its mass over the same square; an empty well-formed leaf whose square holds a massive particle stays well formed and holds that particle once more |
| BarnesHut.Subdivide | include/BarnesHut.hpp:78-85 | the node becomes a branch with four fresh empty half-size children at the NW, NE, SE and SW corners; nothing else changes |
| BarnesHut.Quadrant | include/BarnesHut.hpp:78-85 | the index of the child whose square holds a point of the node is below 4 |
| BarnesHut.SubdivideTiles | include/BarnesHut.hpp:78-85 | a point of the parent lies in exactly one child, the one `Quadrant` names; a point outside the parent lies in none |
| BarnesHut.SubdivideChildren | include/BarnesHut.hpp:78-85 | some child of `subdivide` holds a point exactly when the parent does, and no two children hold the same point |
| BarnesHut.FirstContaining | include/BarnesHut.hpp:130-135 | the `break` loop over the children returns the first child holding the point, or None when no child holds it |
| BarnesHut.FirstIsQuadrant | include/BarnesHut.hpp:144-149 | for children in subdivide's squares, the first child holding a point of the parent is the one at its quadrant |
| BarnesHut.AddMass | include/BarnesHut.hpp:153-158 | the node's mass grows by the particle's, and its mass-weighted moment grows by the particle's, so the centre stays the weighted average; position, size, leaf status, particle and children are kept |
| BarnesHut.InsertNode | include/BarnesHut.hpp:113-159 | `Node::insert` keeps the node's square; a particle outside changes nothing; one inside adds exactly its mass (`InsertNodeCorrect` proves the rest) |
| BarnesHut.Split | include/BarnesHut.hpp:124-159 | the occupied-leaf case of insert turns the leaf into a branch over the same square with no particle of its own, and adds exactly the new particle's mass (`SplitCorrect` proves the rest) |
| BarnesHut.InsertNodeCorrect | include/BarnesHut.hpp:113-159 | insert keeps the tree well-formed over the same square; a particle outside changes nothing; otherwise the node holds that particle once more and gains exactly its mass and moment |
| BarnesHut.SplitCorrect | include/BarnesHut.hpp:125-142 | splitting an occupied leaf yields a well-formed branch holding both particles, with both masses and moments |
| BarnesHut.SplitFurther | include/BarnesHut.hpp:130-142 | when both particles fall in the same child, it is the child the old particle went to, and splitting it again is on a smaller depth bound |
| BarnesHut.SplitApart | include/BarnesHut.hpp:125-142 | when the two particles fall in different children, each stored in its own fresh child, the node becomes a well-formed branch that gained the new particle |
| BarnesHut.SplitTogether | include/BarnesHut.hpp:125-142 | when both particles fall in the same child and its own split gains the new particle, the node becomes a well-formed branch that gained it |
| BarnesHut.AssembleSplit | include/BarnesHut.hpp:125-158 | four well-formed children carrying both particles form, with the mass update, a well-formed branch that gained the new particle |
| BarnesHut.BranchInsert | include/BarnesHut.hpp:143-158 | in the branch case, the child that took the particle grew by it, and so does the node |
| BarnesHut.ChildApart | include/BarnesHut.hpp:144-149 | whatever a child of a branch holds, its parent holds, so distinctness passes down |
| BarnesHut.FreshChildren | include/BarnesHut.hpp:78-85 | the four children `subdivide` makes are empty, well-formed leaves |
| BarnesHut.EmptyLeaf | include/BarnesHut.hpp:30-31 | a fresh node with a positive side is an empty, well-formed leaf with zero moment |
| BarnesHut.StoredContained | include/BarnesHut.hpp:113-114 | every particle held below a well-formed node lies in its square |
| BarnesHut.ClearNode | include/BarnesHut.hpp:57-69 | `clear` returns the node to a leaf over the same square, with no particle, zero mass, zero centre and no children |
| BarnesHut.ClearIsEmpty | include/BarnesHut.hpp:57-69 | a cleared node holds nothing, is well-formed when its side is positive, and then inserting a particle it contains just stores it |
| BarnesHut.ComputeNodeMass | include/BarnesHut.hpp:164-185 | the depth-first pass with its loop over the children computes `Distributed` |
| BarnesHut.DistributedMass | include/BarnesHut.hpp:164-185 | after the pass every node's mass is the mass of the leaves below it, the root's included |
| BarnesHut.DistributedKeepsGood | include/BarnesHut.hpp:164-185 | on a well-formed tree, which insert maintains, the pass changes nothing: insert already keeps every mass and centre of mass |
| BarnesHut.InsertStep | include/BarnesHut.hpp:100-102 | one step of the insertion loop keeps the tree well-formed, counts the particle once if its square holds it, and grows the mass by that particle's |
| BarnesHut.QuadTree.constructor | include/BarnesHut.hpp:227-229 | the root is a fresh node over the given square |
| BarnesHut.QuadTree.Reset | include/BarnesHut.hpp:282-286 | the root is a fresh node at (0, 0) whose side is the window width |
| BarnesHut.QuadTree.Clear | include/BarnesHut.hpp:274-280 | the root is cleared and set to null |
| BarnesHut.QuadTree.Insert | include/BarnesHut.hpp:262-264 | inserting every particle once, in index order, keeps the root well-formed over its square; it then also holds exactly the particles in its square, each once, and has gained exactly their mass |
| BarnesHut.QuadTree.ComputeMassDistribution | include/BarnesHut.hpp:270-272 | the root becomes `Distributed` of the old root |
| ArenaQuadtree.NewContaining | include/BarnesHut.old.hpp:38-55 | the square holds every particle on both axes; for finite non-empty input its side is the spread of some pair of particles; an empty input keeps the float limits |
| ArenaQuadtree.TrackStep | include/BarnesHut.old.hpp:44-49 | one turn of the min/max loop keeps the bounds holding every coordinate seen and attained by a particle |
| ArenaQuadtree.BoxInside | include/BarnesHut.old.hpp:51-52 | a point within the bounds lies in the square built from them |
| ArenaQuadtree.FindQuadrant | include/BarnesHut.old.hpp:58-60 | the quadrant is in 0..3; bit 0 is set exactly when the point is right of the centre, bit 1 exactly when it is below |
| ArenaQuadtree.IntoQuadrant | include/BarnesHut.old.hpp:63-69 | the quadrant has half the side, with its centre moved a quarter side by bit 0 on x and by bit 1 on y |
| ArenaQuadtree.SubdivideQuad | include/BarnesHut.old.hpp:72-74 | four quadrants, each of half the side and lying within the square; a point of the square lies in the quadrant `findQuadrant` names for it |
| ArenaQuadtree.QuadrantKeeps | include/BarnesHut.old.hpp:58-69 | a point of a square lies in the quadrant `findQuadrant` picks for it |
| ArenaQuadtree.QuadrantInside | include/BarnesHut.old.hpp:63-69 | every quadrant lies inside its square |
| ArenaQuadtree.SepInQuad | include/BarnesHut.old.hpp:185-205 | two points of one square are at most its side apart, which bounds the split loop |
| ArenaQuadtree.NewNode | include/BarnesHut.old.hpp:87-88 | `Node(next, quad)`: an empty leaf over the given square with the given next link |
| ArenaQuadtree.IsLeaf | include/BarnesHut.old.hpp:94-96 | a slot is a leaf when its children index is 0; a predicate with no contract of its own; `Descend` and `insert`'s descent loop stop at it |
| ArenaQuadtree.IsEmpty | include/BarnesHut.old.hpp:102-104 | a slot is empty when its mass is 0; a predicate with no contract of its own; `InsertArena` and `insert` fill an empty leaf in place |
| ArenaQuadtree.ChildBounds | include/BarnesHut.old.hpp:131-157 | a branch's children come after it, inside the arena, at 1 + 4k for its parent slot k |
| ArenaQuadtree.ChildQuad | include/BarnesHut.old.hpp:147-153 | the j-th child of a branch has the j-th quadrant of the branch's square |
| ArenaQuadtree.SubdivideLayout | include/BarnesHut.old.hpp:131-157 | subdivision changes only the node's children index, set to the old length c, and appends its quadrants at c..c+3 with next links c+1, c+2, c+3 and the node's own next |
| ArenaQuadtree.SubdivideKeeps | include/BarnesHut.old.hpp:131-157 | subdividing a leaf of a well-formed arena keeps it well-formed, with the leaf recorded as the last parent |
| ArenaQuadtree.SubdivideLeafMass | include/BarnesHut.old.hpp:131-157 | subdividing a leaf takes its mass out of the leaf total; the new leaves hold none |
| ArenaQuadtree.SetLeafKeeps | include/BarnesHut.old.hpp:169-181 | setting a leaf's point and mass keeps the arena well-formed when a massive point lies in its square, and changes the leaf total by the change of mass |
| ArenaQuadtree.SetTwoLeaves | include/BarnesHut.old.hpp:196-203 | filling two different leaves, each with a point of its own square, keeps the arena well-formed and changes the leaf total by the two changes of mass |
| ArenaQuadtree.Descend | include/BarnesHut.old.hpp:160-166 | the descent from a slot ends at a leaf at or after it |
| ArenaQuadtree.DescendKeeps | include/BarnesHut.old.hpp:162-166 | a point of a node's square lies in the square of the leaf its descent reaches |
| ArenaQuadtree.DescendStep | include/BarnesHut.old.hpp:163-166 | one step of the descent moves to a later slot that reaches the same leaf |
| ArenaQuadtree.SplitStart | include/BarnesHut.old.hpp:175-185 | the split loop starts in its invariant at an occupied leaf |
| ArenaQuadtree.SplitDeeper | include/BarnesHut.old.hpp:185-193 | a round where both points fall in one quadrant keeps the invariant at that quadrant's fresh slot, with fewer halvings left |
| ArenaQuadtree.SplitStep | include/BarnesHut.old.hpp:185-193 | when both points fall in one quadrant, that fresh slot's square holds both and is half as wide |
| ArenaQuadtree.SplitApart | include/BarnesHut.old.hpp:194-203 | the last round, when the points fall in different quadrants, leaves a well-formed arena whose leaves hold the old total plus the new mass |
| ArenaQuadtree.SplitApartDone | include/BarnesHut.old.hpp:194-203 | the last round puts the old and the new point, with their masses, in two different fresh leaves |
| ArenaQuadtree.SplitArena | include/BarnesHut.old.hpp:185-205 | the split loop adds at least one parent and four slots per parent |
| ArenaQuadtree.SplitRound | include/BarnesHut.old.hpp:186-204 | one round of the split loop adds at least one parent and four slots per parent |
| ArenaQuadtree.SplitArenaDeeper | include/BarnesHut.old.hpp:186-193 | a round where both points share a quadrant hands on to that quadrant with fewer halvings left, and the loop's result is unchanged |
| ArenaQuadtree.SplitArenaApart | include/BarnesHut.old.hpp:194-203 | a round where the points fall in different quadrants ends the loop with the two fresh leaves filled |
| ArenaQuadtree.SplitArenaDone | include/BarnesHut.old.hpp:185-205 | the split loop, run from its invariant, ends with a well-formed arena whose leaves gained exactly the new mass, and with both points in different fresh leaves |
| ArenaQuadtree.InsertArena | include/BarnesHut.old.hpp:159-206 | insert adds as many parents as it subdivides, four slots each |
| ArenaQuadtree.InsertArenaInserted | include/BarnesHut.old.hpp:159-206 | insert keeps the arena well-formed and its leaves gain exactly the mass; the leaf the descent reaches takes the point when empty, adds the mass for the same point, and is split otherwise |
| ArenaQuadtree.ChildrenLater | include/BarnesHut.old.hpp:210-212 | the children of the k-th parent are leaves or parents recorded after it, so the reverse walk handles children first |
| ArenaQuadtree.RootMassIsLeafMass | include/BarnesHut.old.hpp:208-230 | the mass propagate gives the root is the mass of all the leaves |
| ArenaQuadtree.PropagatedStart | include/BarnesHut.old.hpp:208-210 | before the reverse walk every leaf already holds its propagated value |
| ArenaQuadtree.DoneNext | include/BarnesHut.old.hpp:210-212 | the parent handled next is untouched and its children already hold their final values |
| ArenaQuadtree.BranchCombined | include/BarnesHut.old.hpp:211-228 | a branch combined from children holding their propagated values gets its own propagated value |
| ArenaQuadtree.Combined | include/BarnesHut.old.hpp:211-228 | one step of `propagate`: the branch's mass is its four children's, and where that mass is nonzero the branch's position times its mass is the children's total moment; the children index, next link and square are kept |
| ArenaQuadtree.CombineStep | include/BarnesHut.old.hpp:210-229 | handling the next parent in reverse gives it its propagated value and keeps the loop invariant |
| ArenaQuadtree.PropagatedKeeps | include/BarnesHut.old.hpp:208-230 | after the walk each slot holds its propagated value and the root the total leaf mass; the layout, and the geometry when present, are kept |
| ArenaQuadtree.Quadtree.constructor | include/BarnesHut.old.hpp:120-121 | stores theta² and epsilon²; no nodes or parents yet |
| ArenaQuadtree.Quadtree.Clear | include/BarnesHut.old.hpp:124-128 | exactly one node, the empty root over the given quad with no children and next 0, and no parents: a well-formed arena without mass |
| ArenaQuadtree.Quadtree.Subdivide | include/BarnesHut.old.hpp:131-157 | returns the old length c, records the node as a parent and appends its four quadrants at c..c+3 (`SubdivideNodes`, laid out by `SubdivideLayout`) |
| ArenaQuadtree.Quadtree.Insert | include/BarnesHut.old.hpp:159-206 | the nodes and parents become `InsertArena` of the old ones; `InsertArenaInserted` says what that means |
| ArenaQuadtree.Quadtree.SplitLeaf | include/BarnesHut.old.hpp:185-205 | the split loop's nodes and parents become `SplitArena` of the old ones |
| ArenaQuadtree.Quadtree.Propagate | include/BarnesHut.old.hpp:208-230 | every slot gets its propagated mass (sum of the children's) and position (their mass-weighted mean): the root gets the mass of all leaves; parents and the arena's layout and geometry are kept |

## Left out

- Force evaluation is not modelled: `Node::calculateForce` (include/BarnesHut.hpp:187-218), `Quadtree::acc` and `Solver::calculateGravitationalForce`. They are float and square-root numerics with tuned thresholds. Where a loop needs the pair force, it is the function parameter `pairForce`.
- `GravityGrid::calculateGravityOld` and `Particle::calculate_gravitational_force` are not modelled. The second is dead code: its result is discarded.
- Threads and mutexes are not modelled. `Node::_insert`, `QuadTree::calculateForces`, `CollisionGrid::checkCollisionsInGrid` and `Solver::calculateGravity` are modelled by their sequential loops. How they split work among workers is in `WorkSplit`.
- `WorkSplit.FloorSplit`, `WorkSplit.CeilChunk`, `WorkSplit.CeilSplit`: they require at least one worker. `hardware_concurrency()` may yield 0, and then the source divides by zero.
- Rendering, window and input handling, the timing in `QuadTree::update`, and the frame glue (`update`, `_update`, `_calculateForces`) are out of scope.
- Floats are reals: rounding, NaN, infinities and overflow are not modelled. Indices and sizes are unbounded naturals.
- `ArenaQuadtree.NewContaining`: for an empty input the side is FloatLowest − FloatMax as an exact real, where float arithmetic overflows to −infinity.
- Square roots are never computed. The distance is an input of `Solver.ResolveCollision`, `CollisionMath.ResolveCollision`, `CollisionGrid.CollisionGrid.CheckCollisionsInGrid` and `Vectors.Normalize`.
- `Solver.ResolveCollision`: the touching and second-call properties need the distance input to be the true distance (`Collision.RespondThenNoOp` requires `IsMagnitude`).
- `CollisionMath.ResolveCollision`: same as `Solver.ResolveCollision`.
- `Particles.Particle.constructor`: the float member `radius` of the source is never set, because the constructor parameter of the same name shadows it. The radius the program reads is the shape's (`include/collision_math.hpp:37`), which the constructor sets, and the model's `radius` field stands for that one.
- `Particles.ParticleStore.Add`: the stored particles are objects that keep their identity. In the source the vector holds them by value, and an insertion may reallocate it and move every element. Pointers held elsewhere, such as the collision grid's cells, then dangle until the grid is filled again. The model does not capture that move.
- `Particles.Particle.Update` requires a nonzero mass. With a zero radius the source divides by zero.
- `Collision.Respond`: it requires m1 + m2 ≠ 0. The source divides by that sum.
- Pointers become indices, in collision-grid buckets and in a `BarnesHut` node's particle. Pointer comparison becomes index comparison of distinct particle objects (`Distinct`).
- `delete` and destructors are not modelled.
- `BarnesHut.QuadTree.Insert`: it requires pairwise distinct positions and positive masses. With coincident positions the source recurses without bound, and a zero total mass would divide by zero. The recursive datatype stands for the pointer tree: child pointers are a sequence of zero or four nodes.
- `ArenaQuadtree.IntoQuadrant`: it is defined only for quadrants 0 to 3, the values `findQuadrant` yields.
- `ArenaQuadtree.Quadtree.Insert`: it requires the point to lie in the root's square, as `newContaining` guarantees for the particles it is built from. For two points outside it the split loop need not end.
- `ArenaQuadtree.Quadtree.Insert`: the source keeps `p` as a reference into `nodes`, and `subdivide` may reallocate that vector. The model uses a copy of the old point, the evident intent.
- `ArenaQuadtree.Quadtree.SplitLeaf`: the split loop of `insert` is its own method, and `Insert` calls it.
- `ArenaQuadtree.Quadtree.Propagate`: a branch whose children's masses add to zero keeps the weighted sum as its position. The source divides by zero there.
- The theta² and epsilon² fields of the arena quadtree are stored but only `acc` reads them.
- `Node::render` and `create` have no model. `isBranch` is the negation of `ArenaQuadtree.IsLeaf`, which the descent loop of `insert` tests instead.
