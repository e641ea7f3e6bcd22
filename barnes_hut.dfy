/**
 * The pointer quadtree of include/BarnesHut.hpp. A Node is a square region
 * (top-left corner and side) that is either a leaf holding at most one
 * particle or a branch with four children, and carries the total mass and
 * centre of mass of what lies below it.
 *
 * The tree is a value here: Node::insert, subdivide, clear and
 * computeMassDistribution return the updated node instead of writing
 * through pointers, and QuadTree owns the root and replaces it in place.
 * A node's particle pointer is an index into the particle vector.
 */
module BarnesHut {
  import opened Vectors
  import opened Wrappers
  import opened Particles
  import opened Halving
  import Config

  datatype Node = Node(
    position: Vec2,
    size: real,
    centerOfMass: Vec2,
    totalMass: real,
    isLeaf: bool,
    particle: Option<nat>,
    children: seq<Node>)

  /** Node(position, size): a leaf over the given square that holds no particle and has no mass or moment. */
  function NewNode(position: Vec2, size: real): (r: Node)
    ensures r.position == position && r.size == size && r.isLeaf && r.particle.None? && r.children == []
    ensures forall j: nat :: Count(r, j) == 0
  {
    Node(position, size, Zero, 0.0, true, None, [])
  }

  /** Node::contains: the half-open square [x, x + size) by [y, y + size). */
  predicate Contains(t: Node, p: Vec2)
    ensures Contains(t, p) ==> t.size > 0.0
  {
    t.position.x <= p.x < t.position.x + t.size &&
    t.position.y <= p.y < t.position.y + t.size
  }

  /** The region is half-open: it holds its top-left corner but not the points on its right or bottom edge. */
  lemma ContainsHalfOpen(t: Node, p: Vec2)
    ensures Contains(t, t.position) <==> t.size > 0.0
    ensures !Contains(t, Vec2(t.position.x + t.size, p.y)) && !Contains(t, Vec2(p.x, t.position.y + t.size))
  {
  }

  /** The top-left corners the children get from subdivide: NW, NE, SE, SW. */
  function Corner(t: Node, i: nat): Vec2 {
    var h := t.size / 2.0;
    if i == 0 then t.position
    else if i == 1 then Vec2(t.position.x + h, t.position.y)
    else if i == 2 then Vec2(t.position.x + h, t.position.y + h)
    else Vec2(t.position.x, t.position.y + h)
  }

  /** Node::subdivide: four fresh half-size children, and the node is no longer a leaf. */
  function Subdivide(t: Node): (r: Node)
    ensures !r.isLeaf && |r.children| == 4
    ensures forall i :: 0 <= i < 4 ==> r.children[i] == NewNode(Corner(t, i), t.size / 2.0)
    ensures r.(isLeaf := t.isLeaf, children := t.children) == t
  {
    var h := t.size / 2.0;
    t.(isLeaf := false,
       children := [NewNode(Corner(t, 0), h), NewNode(Corner(t, 1), h), NewNode(Corner(t, 2), h), NewNode(Corner(t, 3), h)])
  }

  /** The index of the child whose square holds p when p lies in t. */
  function Quadrant(t: Node, p: Vec2): (i: nat)
    ensures i < 4
  {
    var h := t.size / 2.0;
    var east, south := p.x >= t.position.x + h, p.y >= t.position.y + h;
    if !east && !south then 0 else if east && !south then 1 else if east then 2 else 3
  }

  /** The square of child i of t, without building it. */
  predicate InChild(t: Node, i: nat, p: Vec2) {
    Contains(NewNode(Corner(t, i), t.size / 2.0), p)
  }

  /**
   * The four children tile their parent: a point of the parent lies in
   * exactly one child, the one Quadrant names, and a point outside the
   * parent lies in none.
   */
  lemma SubdivideTiles(t: Node, p: Vec2, i: nat)
    requires i < 4
    ensures InChild(t, i, p) <==> Contains(t, p) && i == Quadrant(t, p)
  {
  }

  /** Which children of the result of subdivide hold a point. */
  lemma SubdivideChildren(t: Node, p: Vec2)
    ensures Contains(t, p) <==> exists i :: 0 <= i < 4 && Contains(Subdivide(t).children[i], p)
    ensures forall i, j ::
      (0 <= i < 4 && 0 <= j < 4 && Contains(Subdivide(t).children[i], p) && Contains(Subdivide(t).children[j], p)) ==> i == j
  {
    var cs := Subdivide(t).children;
    forall i | 0 <= i < 4
      ensures Contains(cs[i], p) <==> Contains(t, p) && i == Quadrant(t, p)
    {
      SubdivideTiles(t, p, i);
    }
    if Contains(t, p) {
      assert Contains(cs[Quadrant(t, p)], p);
    }
  }

  /**
   * The loop over children that stops at the first one containing p:
   * the index of that child, or None when no child holds p.
   */
  function FirstContaining(cs: seq<Node>, p: Vec2, from: nat): (r: Option<nat>)
    requires from <= |cs|
    ensures r.Some? ==> (from <= r.value < |cs| && Contains(cs[r.value], p) &&
                         forall j :: from <= j < r.value ==> !Contains(cs[j], p))
    ensures r.None? ==> forall j :: from <= j < |cs| ==> !Contains(cs[j], p)
    decreases |cs| - from
  {
    if from == |cs| then None
    else if Contains(cs[from], p) then Some(from)
    else FirstContaining(cs, p, from + 1)
  }

  /** Sum of the children's masses below n, in the order computeMassDistribution adds them. */
  function MassSum(cs: seq<Node>, n: nat): real
    requires n <= |cs|
  {
    if n == 0 then 0.0 else MassSum(cs, n - 1) + cs[n - 1].totalMass
  }

  /** The mass moment of one node: centre of mass times total mass. */
  function Moment(t: Node): Vec2 {
    Scale(t.centerOfMass, t.totalMass)
  }

  /** Sum of the children's mass moments below n. */
  function MomentSum(cs: seq<Node>, n: nat): Vec2
    requires n <= |cs|
  {
    if n == 0 then Zero else Add(MomentSum(cs, n - 1), Moment(cs[n - 1]))
  }

  /**
   * The shape every tree of the simulation keeps: a positive side; a leaf
   * has no children and either no particle and zero mass, or one particle
   * of its own square, whose mass and position it carries; a branch has no
   * particle and the four children subdivide makes, each itself well-formed,
   * and its mass and moment are the sums of theirs.
   */
  predicate Good(t: Node, ps: seq<ParticleState>)
    decreases t
  {
    t.size > 0.0 && t.totalMass >= 0.0 && (t.totalMass == 0.0 ==> t.centerOfMass == Zero) &&
    if t.isLeaf then
      t.children == [] &&
      (t.particle.None? ==> t.totalMass == 0.0) &&
      (t.particle.Some? ==>
        var k := t.particle.value;
        k < |ps| && Contains(t, ps[k].position) && t.totalMass == ps[k].mass && t.centerOfMass == ps[k].position)
    else
      t.particle.None? && |t.children| == 4 &&
      (forall i :: 0 <= i < 4 ==> t.children[i].position == Corner(t, i) && t.children[i].size == t.size / 2.0) &&
      (forall i :: 0 <= i < 4 ==> Good(t.children[i], ps)) &&
      t.totalMass == MassSum(t.children, 4) && Moment(t) == MomentSum(t.children, 4)
  }

  /** How many leaves below t hold particle j. */
  function Count(t: Node, j: nat): nat
    decreases t
  {
    if t.isLeaf || |t.children| != 4 then
      if t.particle == Some(j) then 1 else 0
    else
      Count(t.children[0], j) + Count(t.children[1], j) + Count(t.children[2], j) + Count(t.children[3], j)
  }

  /** r holds what t holds and particle k once more. */
  ghost predicate Gains(r: Node, t: Node, k: nat) {
    forall j: nat :: Count(r, j) == Count(t, j) + (if j == k then 1 else 0)
  }

  predicate MassesPositive(ps: seq<ParticleState>) {
    forall k :: 0 <= k < |ps| ==> ps[k].mass > 0.0
  }

  /** No particle held below t sits where particle k sits. */
  ghost predicate ApartFrom(t: Node, ps: seq<ParticleState>, k: nat)
    requires k < |ps|
  {
    forall j: nat :: Count(t, j) > 0 ==> j < |ps| && ps[j].position != ps[k].position
  }

  /**
   * The leaf update of insert: the node takes the particle, its position and
   * its mass. An empty well-formed leaf whose square holds a massive particle
   * stays well formed and holds that particle once more.
   */
  function Store(t: Node, ps: seq<ParticleState>, k: nat): (r: Node)
    requires k < |ps|
    ensures r.position == t.position && r.size == t.size && r.totalMass == ps[k].mass
    ensures Good(t, ps) && t.isLeaf && t.particle.None? && Contains(t, ps[k].position) && ps[k].mass > 0.0 ==>
      Good(r, ps) && Gains(r, t, k)
  {
    t.(particle := Some(k), centerOfMass := ps[k].position, totalMass := ps[k].mass)
  }

  /**
   * The update at the end of insert: totalMass grows by the particle's mass
   * and centerOfMass moves to the mass-weighted average of the old centre
   * and the particle's position, so the moment grows by the particle's.
   */
  function AddMass(t: Node, p: ParticleState): (r: Node)
    requires t.totalMass + p.mass != 0.0
    ensures r.totalMass == t.totalMass + p.mass
    ensures Moment(r) == Add(Moment(t), Scale(p.position, p.mass))
    ensures r.position == t.position && r.size == t.size && r.isLeaf == t.isLeaf
    ensures r.particle == t.particle && r.children == t.children
  {
    var total := t.totalMass + p.mass;
    var cx := (t.centerOfMass.x * (total - p.mass) + p.position.x * p.mass) / total;
    var cy := (t.centerOfMass.y * (total - p.mass) + p.position.y * p.mass) / total;
    assert cx * total == t.centerOfMass.x * t.totalMass + p.position.x * p.mass;
    assert cy * total == t.centerOfMass.y * t.totalMass + p.position.y * p.mass;
    t.(totalMass := total, centerOfMass := Vec2(cx, cy))
  }

  /** Two points of the same square are closer than its side. */
  lemma SepBelowSize(t: Node, a: Vec2, b: Vec2)
    requires Contains(t, a) && Contains(t, b)
    ensures Sep(a, b) < t.size
  {
  }

  /**
   * Node::insert. A particle outside the node changes nothing. An empty leaf
   * takes the particle. An occupied leaf subdivides and re-inserts both
   * particles (Split). A branch passes the particle to the first child
   * holding it. Every node the particle entered then adds its mass.
   */
  function InsertNode(t: Node, ps: seq<ParticleState>, k: nat): (r: Node)
    requires k < |ps| && MassesPositive(ps) && Good(t, ps) && ApartFrom(t, ps, k)
    ensures r.position == t.position && r.size == t.size
    ensures !Contains(t, ps[k].position) ==> r == t
    ensures Contains(t, ps[k].position) ==> r.totalMass == t.totalMass + ps[k].mass
    decreases t
  {
    var p := ps[k];
    if !Contains(t, p.position) then t
    else if t.isLeaf then
      if t.particle.None? then
        Store(t, ps, k)
      else
        assert Count(t, t.particle.value) > 0;
        Split(t, ps, t.particle.value, k)
    else
      FirstIsQuadrant(t, t.children, p.position);
      var i := FirstContaining(t.children, p.position, 0).value;
      ChildApart(t, ps, k, i);
      AddMass(t.(children := t.children[i := InsertNode(t.children[i], ps, k)]), p)
  }

  /**
   * The occupied-leaf branch of insert for a leaf holding particle e: the
   * leaf subdivides and drops e, e goes to the child holding it (an empty
   * leaf), k goes to the child holding it, which splits again when that is
   * the child e went to, and the node adds the mass of k. Because the two
   * positions differ, each split halves a square that holds both, which
   * bounds the depth.
   */
  function Split(t: Node, ps: seq<ParticleState>, e: nat, k: nat): (r: Node)
    requires e < |ps| && k < |ps| && MassesPositive(ps) && ps[e].position != ps[k].position
    requires Good(t, ps) && t.isLeaf && t.particle == Some(e) && Contains(t, ps[k].position)
    ensures r.position == t.position && r.size == t.size && !r.isLeaf && r.particle.None?
    ensures r.totalMass == t.totalMass + ps[k].mass
    decreases Levels(t.size, Sep(ps[e].position, ps[k].position))
  {
    var s := Subdivide(t).(particle := None);
    var pe, pk := ps[e].position, ps[k].position;
    FirstIsQuadrant(t, s.children, pe);
    var ie := FirstContaining(s.children, pe, 0).value;
    var cs1 := s.children[ie := Store(s.children[ie], ps, e)];
    FirstIsQuadrant(t, cs1, pk);
    var ik := FirstContaining(cs1, pk, 0).value;
    var c := cs1[ik];
    if c.particle.None? then
      AddMass(s.(children := cs1[ik := Store(c, ps, k)]), ps[k])
    else
      SplitFurther(t, ps, e, k, ie, ik);
      AddMass(s.(children := cs1[ik := Split(c, ps, c.particle.value, k)]), ps[k])
  }

  /** When both particles fall in the same child, that child can split in turn, on a smaller measure. */
  lemma SplitFurther(t: Node, ps: seq<ParticleState>, e: nat, k: nat, ie: nat, ik: nat)
    requires e < |ps| && k < |ps| && MassesPositive(ps) && ps[e].position != ps[k].position
    requires Good(t, ps) && t.isLeaf && t.particle == Some(e)
    requires ie < 4 && ik < 4
    requires Contains(Subdivide(t).children[ie], ps[e].position)
    requires var cs1 := Subdivide(t).children[ie := Store(Subdivide(t).children[ie], ps, e)];
      Contains(cs1[ik], ps[k].position) && cs1[ik].particle.Some?
    ensures ik == ie
    ensures var c := Store(Subdivide(t).children[ie], ps, e);
      Good(c, ps) && c.isLeaf && c.particle == Some(e) && Contains(c, ps[k].position) &&
      Levels(c.size, Sep(ps[e].position, ps[k].position)) < Levels(t.size, Sep(ps[e].position, ps[k].position))
  {
    var c := Store(Subdivide(t).children[ie], ps, e);
    SepBelowSize(c, ps[e].position, ps[k].position);
    LevelsDecrease(t.size, Sep(ps[e].position, ps[k].position));
  }

  /**
   * What insert does to the bookkeeping: the tree stays well-formed over the
   * same square; a particle outside changes nothing; otherwise the node
   * gains exactly that particle, its mass and its moment.
   */
  lemma {:induction false} InsertNodeCorrect(t: Node, ps: seq<ParticleState>, k: nat)
    requires k < |ps| && MassesPositive(ps) && Good(t, ps) && ApartFrom(t, ps, k)
    ensures var r := InsertNode(t, ps, k);
      Good(r, ps) && r.position == t.position && r.size == t.size &&
      (!Contains(t, ps[k].position) ==> r == t) &&
      (Contains(t, ps[k].position) ==>
        r.totalMass == t.totalMass + ps[k].mass &&
        Moment(r) == Add(Moment(t), Scale(ps[k].position, ps[k].mass)) &&
        Gains(r, t, k))
    decreases t
  {
    var p := ps[k];
    if Contains(t, p.position) {
      if t.isLeaf {
        if t.particle.Some? {
          assert Count(t, t.particle.value) > 0;
          SplitCorrect(t, ps, t.particle.value, k);
        }
      } else {
        FirstIsQuadrant(t, t.children, p.position);
        var i := FirstContaining(t.children, p.position, 0).value;
        ChildApart(t, ps, k, i);
        InsertNodeCorrect(t.children[i], ps, k);
        assert Contains(t.children[i], p.position);
        BranchInsert(t, ps, k, i, InsertNode(t.children[i], ps, k));
      }
    }
  }

  /** What Split does: the node becomes a well-formed branch holding both particles, with both masses. */
  lemma {:induction false} SplitCorrect(t: Node, ps: seq<ParticleState>, e: nat, k: nat)
    requires e < |ps| && k < |ps| && MassesPositive(ps) && ps[e].position != ps[k].position
    requires Good(t, ps) && t.isLeaf && t.particle == Some(e) && Contains(t, ps[k].position)
    ensures var r := Split(t, ps, e, k);
      Good(r, ps) && r.position == t.position && r.size == t.size &&
      r.totalMass == t.totalMass + ps[k].mass &&
      Moment(r) == Add(Moment(t), Scale(ps[k].position, ps[k].mass)) &&
      Gains(r, t, k)
    decreases Levels(t.size, Sep(ps[e].position, ps[k].position))
  {
    var s := Subdivide(t).(particle := None);
    var pe, pk := ps[e].position, ps[k].position;
    FirstIsQuadrant(t, s.children, pe);
    var ie := FirstContaining(s.children, pe, 0).value;
    var cs1 := s.children[ie := Store(s.children[ie], ps, e)];
    FirstIsQuadrant(t, cs1, pk);
    var ik := FirstContaining(cs1, pk, 0).value;
    var c := cs1[ik];
    if c.particle.None? {
      assert ik != ie;
      assert Split(t, ps, e, k) == AddMass(s.(children := cs1[ik := Store(c, ps, k)]), ps[k]);
      SplitApart(t, ps, e, k, ie, ik);
    } else {
      SplitFurther(t, ps, e, k, ie, ik);
      var c' := Split(c, ps, e, k);
      assert cs1[ik := c'] == s.children[ie := c'];
      assert Split(t, ps, e, k) == AddMass(s.(children := s.children[ie := c']), ps[k]);
      SplitCorrect(c, ps, e, k);
      SplitTogether(t, ps, e, k, ie, c');
    }
  }

  /** The four children subdivide makes are empty, well-formed leaves. */
  lemma FreshChildren(t: Node, ps: seq<ParticleState>)
    requires t.size > 0.0
    ensures forall i :: 0 <= i < 4 ==> Good(Subdivide(t).children[i], ps) && Subdivide(t).children[i].particle.None?
    ensures MassSum(Subdivide(t).children, 4) == 0.0 && MomentSum(Subdivide(t).children, 4) == Zero
  {
    FreshLeaves(t, ps);
    FreshSums(t, ps);
  }

  lemma FreshLeaves(t: Node, ps: seq<ParticleState>)
    requires t.size > 0.0
    ensures forall i :: 0 <= i < 4 ==> Good(Subdivide(t).children[i], ps) && Subdivide(t).children[i].particle.None?
  {
    var h := t.size / 2.0;
    EmptyLeaf(Corner(t, 0), h, ps);
    EmptyLeaf(Corner(t, 1), h, ps);
    EmptyLeaf(Corner(t, 2), h, ps);
    EmptyLeaf(Corner(t, 3), h, ps);
  }

  lemma FreshSums(t: Node, ps: seq<ParticleState>)
    requires t.size > 0.0
    ensures MassSum(Subdivide(t).children, 4) == 0.0 && MomentSum(Subdivide(t).children, 4) == Zero
  {
    var h := t.size / 2.0;
    EmptyLeaf(Corner(t, 0), h, ps);
    EmptyLeaf(Corner(t, 1), h, ps);
    EmptyLeaf(Corner(t, 2), h, ps);
    EmptyLeaf(Corner(t, 3), h, ps);
    EmptySums(Subdivide(t).children, 4);
  }

  /** A fresh node over a square of positive side is an empty, well-formed leaf without moment. */
  lemma EmptyLeaf(position: Vec2, size: real, ps: seq<ParticleState>)
    requires size > 0.0
    ensures Good(NewNode(position, size), ps) && Moment(NewNode(position, size)) == Zero
  {
  }

  /** Children without mass have zero sums. */
  lemma {:induction false} EmptySums(cs: seq<Node>, n: nat)
    requires n <= |cs|
    requires forall i :: 0 <= i < n ==> cs[i].totalMass == 0.0 && Moment(cs[i]) == Zero
    ensures MassSum(cs, n) == 0.0 && MomentSum(cs, n) == Zero
  {
    if n > 0 {
      EmptySums(cs, n - 1);
    }
  }

  /**
   * When children have the squares subdivide gives them, the first one
   * holding a point of the parent is the one at the point's quadrant.
   */
  lemma FirstIsQuadrant(t: Node, cs: seq<Node>, p: Vec2)
    requires Contains(t, p) && |cs| == 4
    requires forall i :: 0 <= i < 4 ==> cs[i].position == Corner(t, i) && cs[i].size == t.size / 2.0
    ensures FirstContaining(cs, p, 0) == Some(Quadrant(t, p))
  {
    forall i | 0 <= i < 4
      ensures Contains(cs[i], p) <==> i == Quadrant(t, p)
    {
      SubdivideTiles(t, p, i);
    }
    var r := FirstContaining(cs, p, 0);
    assert Contains(cs[Quadrant(t, p)], p);
  }

  /** What a child of a branch holds, its parent holds. */
  lemma ChildApart(t: Node, ps: seq<ParticleState>, k: nat, i: nat)
    requires k < |ps| && !t.isLeaf && |t.children| == 4 && i < 4 && ApartFrom(t, ps, k)
    ensures ApartFrom(t.children[i], ps, k)
  {
    forall j: nat | Count(t.children[i], j) > 0
      ensures j < |ps| && ps[j].position != ps[k].position
    {
      assert Count(t, j) == Count4(t.children, j);
    }
  }

  /** How many of four children hold particle j. */
  function Count4(cs: seq<Node>, j: nat): nat
    requires |cs| == 4
  {
    Count(cs[0], j) + Count(cs[1], j) + Count(cs[2], j) + Count(cs[3], j)
  }

  /** Replacing one of four children changes the count by that child's change. */
  lemma Count4Update(cs: seq<Node>, i: nat, c: Node, j: nat)
    requires |cs| == 4 && i < 4
    ensures Count4(cs[i := c], j) + Count(cs[i], j) == Count4(cs, j) + Count(c, j)
  {
  }

  /** A node with four well-formed children in the right squares, carrying their sums, is well-formed. */
  lemma MakeBranch(r: Node, ps: seq<ParticleState>)
    requires r.size > 0.0 && !r.isLeaf && r.particle.None? && |r.children| == 4
    requires forall i :: 0 <= i < 4 ==> r.children[i].position == Corner(r, i) && r.children[i].size == r.size / 2.0
    requires forall i :: 0 <= i < 4 ==> Good(r.children[i], ps)
    requires r.totalMass > 0.0 && r.totalMass == MassSum(r.children, 4) && Moment(r) == MomentSum(r.children, 4)
    ensures Good(r, ps) && forall j: nat :: Count(r, j) == Count4(r.children, j)
  {
  }

  /** The branch case of insert: the child that took the particle grew by it, and so does the node. */
  lemma BranchInsert(t: Node, ps: seq<ParticleState>, k: nat, i: nat, c': Node)
    requires k < |ps| && MassesPositive(ps) && Good(t, ps) && !t.isLeaf && i < 4
    requires var c := t.children[i];
      Good(c', ps) && c'.position == c.position && c'.size == c.size &&
      c'.totalMass == c.totalMass + ps[k].mass &&
      Moment(c') == Add(Moment(c), Scale(ps[k].position, ps[k].mass)) &&
      Gains(c', c, k)
    ensures var r := AddMass(t.(children := t.children[i := c']), ps[k]);
      Good(r, ps) && Gains(r, t, k)
  {
    var cs := t.children[i := c'];
    SumsUpdate(t.children, i, c', 4);
    forall j: nat
      ensures Count4(cs, j) + Count(t.children[i], j) == Count4(t.children, j) + Count(c', j)
    {
      Count4Update(t.children, i, c', j);
    }
    var r := AddMass(t.(children := cs), ps[k]);
    forall j | 0 <= j < 4
      ensures cs[j].position == Corner(r, j) && cs[j].size == r.size / 2.0 && Good(cs[j], ps)
    {
      assert Corner(r, j) == Corner(t, j);
    }
    MakeBranch(r, ps);
  }

  /** Split when e and k fall in different children. */
  lemma SplitApart(t: Node, ps: seq<ParticleState>, e: nat, k: nat, ie: nat, ik: nat)
    requires e < |ps| && k < |ps| && MassesPositive(ps)
    requires Good(t, ps) && t.isLeaf && t.particle == Some(e)
    requires ie < 4 && ik < 4 && ie != ik
    requires Contains(Subdivide(t).children[ie], ps[e].position) && Contains(Subdivide(t).children[ik], ps[k].position)
    ensures var cs0 := Subdivide(t).children;
      var cs1 := cs0[ie := Store(cs0[ie], ps, e)];
      var r := AddMass(Subdivide(t).(particle := None, children := cs1[ik := Store(cs1[ik], ps, k)]), ps[k]);
      Good(r, ps) && Gains(r, t, k)
  {
    var cs0 := Subdivide(t).children;
    FreshChildren(t, ps);
    var cs1 := cs0[ie := Store(cs0[ie], ps, e)];
    var cs2 := cs1[ik := Store(cs1[ik], ps, k)];
    SumsUpdate(cs0, ie, cs1[ie], 4);
    SumsUpdate(cs1, ik, cs2[ik], 4);
    forall j: nat
      ensures Count4(cs2, j) == Count(t, j) + (if j == k then 1 else 0)
    {
      Count4Update(cs0, ie, cs1[ie], j);
      Count4Update(cs1, ik, cs2[ik], j);
    }
    forall j | 0 <= j < 4
      ensures cs2[j].position == Corner(t, j) && cs2[j].size == t.size / 2.0 && Good(cs2[j], ps)
    {
      if j == ik {
        assert cs2[j] == Store(cs0[j], ps, k);
      } else if j == ie {
        assert cs2[j] == Store(cs0[j], ps, e);
      } else {
        assert cs2[j] == cs0[j];
      }
    }
    AssembleSplit(t, ps, k, cs2);
  }

  /** Split when e and k fall in the same child, which splits in turn. */
  lemma SplitTogether(t: Node, ps: seq<ParticleState>, e: nat, k: nat, ie: nat, c': Node)
    requires e < |ps| && k < |ps| && MassesPositive(ps)
    requires Good(t, ps) && t.isLeaf && t.particle == Some(e) && ie < 4
    requires var c := Store(Subdivide(t).children[ie], ps, e);
      Good(c', ps) && c'.position == c.position && c'.size == c.size &&
      c'.totalMass == c.totalMass + ps[k].mass &&
      Moment(c') == Add(Moment(c), Scale(ps[k].position, ps[k].mass)) &&
      Gains(c', c, k)
    ensures var cs0 := Subdivide(t).children;
      var r := AddMass(Subdivide(t).(particle := None, children := cs0[ie := c']), ps[k]);
      Good(r, ps) && Gains(r, t, k)
  {
    var cs0 := Subdivide(t).children;
    FreshChildren(t, ps);
    var cs2 := cs0[ie := c'];
    SumsUpdate(cs0, ie, c', 4);
    forall j: nat
      ensures Count4(cs2, j) == Count(t, j) + (if j == k then 1 else 0)
    {
      Count4Update(cs0, ie, c', j);
    }
    forall j | 0 <= j < 4
      ensures cs2[j].position == Corner(t, j) && cs2[j].size == t.size / 2.0 && Good(cs2[j], ps)
    {
      if j != ie {
        assert cs2[j] == cs0[j];
      }
    }
    AssembleSplit(t, ps, k, cs2);
  }

  /**
   * The end of Split: four well-formed children in the right squares that
   * carry the leaf's particle and k make, once the node adds k's mass, a
   * well-formed branch that gained k.
   */
  lemma AssembleSplit(t: Node, ps: seq<ParticleState>, k: nat, cs2: seq<Node>)
    requires k < |ps| && MassesPositive(ps) && Good(t, ps) && t.isLeaf && t.particle.Some? && |cs2| == 4
    requires forall j :: 0 <= j < 4 ==> cs2[j].position == Corner(t, j) && cs2[j].size == t.size / 2.0 && Good(cs2[j], ps)
    requires MassSum(cs2, 4) == t.totalMass + ps[k].mass
    requires MomentSum(cs2, 4) == Add(Moment(t), Scale(ps[k].position, ps[k].mass))
    requires forall j: nat :: Count4(cs2, j) == Count(t, j) + (if j == k then 1 else 0)
    ensures var r := AddMass(Subdivide(t).(particle := None, children := cs2), ps[k]);
      Good(r, ps) && Gains(r, t, k)
  {
    var r := AddMass(Subdivide(t).(particle := None, children := cs2), ps[k]);
    forall j | 0 <= j < 4
      ensures r.children[j].position == Corner(r, j) && r.children[j].size == r.size / 2.0
    {
      assert Corner(r, j) == Corner(t, j);
    }
    MakeBranch(r, ps);
  }

  /** Replacing one child changes the sums by the change of that child. */
  lemma {:induction false} SumsUpdate(cs: seq<Node>, i: nat, c: Node, n: nat)
    requires i < |cs| && n <= |cs|
    ensures MassSum(cs[i := c], n) == MassSum(cs, n) + (if i < n then c.totalMass - cs[i].totalMass else 0.0)
    ensures MomentSum(cs[i := c], n) ==
      if i < n then Add(MomentSum(cs, n), Sub(Moment(c), Moment(cs[i]))) else MomentSum(cs, n)
  {
    if n > 0 {
      SumsUpdate(cs, i, c, n - 1);
    }
  }

  /** Every particle held below a well-formed node lies in its square. */
  lemma {:induction false} StoredContained(t: Node, ps: seq<ParticleState>, k: nat)
    requires Good(t, ps) && Count(t, k) > 0
    ensures k < |ps| && Contains(t, ps[k].position)
    decreases t
  {
    if !t.isLeaf {
      var i :| 0 <= i < 4 && Count(t.children[i], k) > 0;
      StoredContained(t.children[i], ps, k);
      assert t.children[i].size == t.size / 2.0;
    }
  }

  /** Node::clear: back to an empty leaf over the same square, with the children dropped. */
  function ClearNode(t: Node): (r: Node)
    ensures r.position == t.position && r.size == t.size
    ensures r.isLeaf && r.children == [] && r.particle.None?
    ensures r.totalMass == 0.0 && r.centerOfMass == Zero
  {
    NewNode(t.position, t.size)
  }

  /** A cleared node holds nothing and is well-formed whenever its side is positive. */
  lemma ClearIsEmpty(t: Node, ps: seq<ParticleState>)
    ensures forall j: nat :: Count(ClearNode(t), j) == 0
    ensures t.size > 0.0 ==> Good(ClearNode(t), ps)
    ensures t.size > 0.0 && MassesPositive(ps) ==>
      forall k :: 0 <= k < |ps| && Contains(t, ps[k].position) ==> InsertNode(ClearNode(t), ps, k) == Store(ClearNode(t), ps, k)
  {
  }

  /**
   * computeMassDistribution as a specification: a leaf is unchanged; a
   * branch first recomputes its children, then takes the sum of their
   * masses and the sum of their moments, divided by that mass when it is
   * positive.
   */
  function Distributed(t: Node): Node
    decreases t
  {
    if t.isLeaf then t
    else
      var cs := seq(|t.children|, i requires 0 <= i < |t.children| => Distributed(t.children[i]));
      var total := MassSum(cs, |cs|);
      var m := MomentSum(cs, |cs|);
      t.(children := cs, totalMass := total, centerOfMass := if total > 0.0 then Vec2(m.x / total, m.y / total) else m)
  }

  /** Node::computeMassDistribution: the depth-first pass, with its loop over the children. */
  method ComputeNodeMass(t: Node) returns (r: Node)
    ensures r == Distributed(t)
    decreases t
  {
    if t.isLeaf {
      return t;
    }
    ghost var want := seq(|t.children|, i requires 0 <= i < |t.children| => Distributed(t.children[i]));
    var total := 0.0;
    var com := Zero;
    var cs := t.children;
    for i := 0 to |t.children|
      invariant |cs| == |want|
      invariant forall j :: 0 <= j < i ==> cs[j] == want[j]
      invariant forall j :: i <= j < |cs| ==> cs[j] == t.children[j]
      invariant total == MassSum(cs, i)
      invariant com == MomentSum(cs, i)
    {
      var child := ComputeNodeMass(t.children[i]);
      SumsPrefix(cs, child, i);
      cs := cs[i := child];
      total := total + child.totalMass;
      com := Add(com, Scale(child.centerOfMass, child.totalMass));
    }
    if total > 0.0 {
      com := Vec2(com.x / total, com.y / total);
    }
    assert forall j :: 0 <= j < |cs| ==> cs[j] == want[j];
    assert cs == want;
    r := t.(children := cs, totalMass := total, centerOfMass := com);
  }

  /** Writing at index i leaves the sums below i alone and extends them by one. */
  lemma {:induction false} SumsPrefix(cs: seq<Node>, c: Node, i: nat)
    requires i < |cs|
    ensures MassSum(cs[i := c], i + 1) == MassSum(cs, i) + c.totalMass
    ensures MomentSum(cs[i := c], i + 1) == Add(MomentSum(cs, i), Moment(c))
  {
    SumsUpdate(cs, i, c, i);
  }

  /** The total mass of the leaves below t. */
  function LeafMass(t: Node): real
    decreases t
  {
    if t.isLeaf then t.totalMass
    else LeafMassSum(t.children, |t.children|)
  }

  function LeafMassSum(cs: seq<Node>, n: nat): real
    requires n <= |cs|
    decreases cs, n
  {
    if n == 0 then 0.0 else LeafMassSum(cs, n - 1) + LeafMass(cs[n - 1])
  }

  /** After the pass, every node's mass is the mass of the leaves below it; in particular the root's. */
  lemma {:induction false} DistributedMass(t: Node)
    ensures Distributed(t).totalMass == LeafMass(t)
    decreases t
  {
    if !t.isLeaf {
      var cs := Distributed(t).children;
      DistributedSum(t.children, cs, |cs|);
    }
  }

  lemma {:induction false} DistributedSum(children: seq<Node>, cs: seq<Node>, n: nat)
    requires |cs| == |children| && n <= |cs|
    requires forall i :: 0 <= i < |cs| ==> cs[i] == Distributed(children[i])
    ensures MassSum(cs, n) == LeafMassSum(children, n)
    decreases children, n
  {
    if n > 0 {
      DistributedSum(children, cs, n - 1);
      DistributedMass(children[n - 1]);
    }
  }

  /**
   * insert already keeps every mass and centre of mass up to date, so on a
   * well-formed tree of positively-massed particles the pass changes nothing.
   */
  lemma {:induction false} DistributedKeepsGood(t: Node, ps: seq<ParticleState>)
    requires Good(t, ps)
    ensures Distributed(t) == t
    decreases t
  {
    if !t.isLeaf {
      var cs := seq(|t.children|, i requires 0 <= i < |t.children| => Distributed(t.children[i]));
      forall i | 0 <= i < 4
        ensures cs[i] == t.children[i]
      {
        DistributedKeepsGood(t.children[i], ps);
      }
      assert cs == t.children;
      var total, m := t.totalMass, Moment(t);
      if total > 0.0 {
        assert m.x / total == t.centerOfMass.x && m.y / total == t.centerOfMass.y;
      }
    }
  }

  /** The total mass of the particles of the first n whose positions lie in t's square. */
  function InRegionMass(ps: seq<ParticleState>, n: nat, t: Node): real
    requires n <= |ps|
  {
    if n == 0 then 0.0
    else InRegionMass(ps, n - 1, t) + (if Contains(t, ps[n - 1].position) then ps[n - 1].mass else 0.0)
  }

  /**
   * t holds what t0 holds and, once each, the particles below i that lie in
   * t0's square; nothing else.
   */
  ghost predicate Counted(t: Node, t0: Node, ps: seq<ParticleState>, i: nat)
    requires i <= |ps|
  {
    forall j: nat :: Count(t, j) == Count(t0, j) + (if j < i && Contains(t0, ps[j].position) then 1 else 0)
  }

  /** One step of the insertion loop keeps its bookkeeping. */
  lemma InsertStep(t0: Node, t: Node, ps: seq<ParticleState>, i: nat)
    requires i < |ps| && MassesPositive(ps) && DistinctPositions(ps)
    requires forall k :: 0 <= k < |ps| ==> ApartFrom(t0, ps, k)
    requires Good(t, ps) && t.position == t0.position && t.size == t0.size && Counted(t, t0, ps, i)
    ensures ApartFrom(t, ps, i)
    ensures var r := InsertNode(t, ps, i);
      Good(r, ps) && r.position == t0.position && r.size == t0.size && Counted(r, t0, ps, i + 1) &&
      r.totalMass == t.totalMass + (if Contains(t0, ps[i].position) then ps[i].mass else 0.0)
  {
    forall j: nat | Count(t, j) > 0
      ensures j < |ps| && ps[j].position != ps[i].position
    {
      if Count(t0, j) > 0 {
        assert ApartFrom(t0, ps, i);
      }
    }
    InsertNodeCorrect(t, ps, i);
  }

  predicate DistinctPositions(ps: seq<ParticleState>) {
    forall a, b :: 0 <= a < b < |ps| ==> ps[a].position != ps[b].position
  }

  /** QuadTree: owns the root, which clear deletes and reset replaces. */
  class QuadTree {
    var root: Option<Node>

    /** QuadTree(position, size): a root covering the square at position with the given side. */
    constructor(position: Vec2, size: real)
      ensures root == Some(NewNode(position, size))
    {
      root := Some(NewNode(position, size));
    }

    /** QuadTree::reset: a fresh root at (0, 0) whose side is the window width. */
    method Reset()
      modifies this
      ensures root == Some(NewNode(Zero, Config.WindowWidth as real))
    {
      root := Some(NewNode(Zero, Config.WindowWidth as real));
    }

    /**
     * QuadTree::clear: the root is cleared, deleted and set to null. The
     * tree is a value here, so clearing the root before dropping it has no
     * effect that can be observed and only the null root remains.
     */
    method Clear()
      modifies this
      ensures root.None?
    {
      root := None;
    }

    /**
     * QuadTree::insert through Node::_insert, sequentially: every particle is
     * inserted once, in index order. Afterwards the root holds exactly the
     * particles that lie in its square, each once, and has gained exactly
     * their mass.
     */
    method Insert(ps: seq<ParticleState>)
      requires root.Some? && Good(root.value, ps) && MassesPositive(ps) && DistinctPositions(ps)
      requires forall k :: 0 <= k < |ps| ==> ApartFrom(root.value, ps, k)
      modifies this
      ensures root.Some? && Good(root.value, ps)
      ensures root.value.position == old(root.value.position) && root.value.size == old(root.value.size)
      ensures Counted(root.value, old(root.value), ps, |ps|)
      ensures root.value.totalMass == old(root.value.totalMass) + InRegionMass(ps, |ps|, old(root.value))
    {
      if |ps| == 0 {
        return;
      }
      var t := root.value;
      ghost var t0 := t;
      for i := 0 to |ps|
        invariant Good(t, ps) && t.position == t0.position && t.size == t0.size
        invariant Counted(t, t0, ps, i)
        invariant t.totalMass == t0.totalMass + InRegionMass(ps, i, t0)
      {
        InsertStep(t0, t, ps, i);
        t := InsertNode(t, ps, i);
      }
      root := Some(t);
    }

    /** QuadTree::computeMassDistribution: the pass over the root. */
    method ComputeMassDistribution()
      requires root.Some?
      modifies this
      ensures root == Some(Distributed(old(root.value)))
    {
      var r := ComputeNodeMass(root.value);
      root := Some(r);
    }
  }
}
