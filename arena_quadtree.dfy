/**
 * The arena quadtree of include/BarnesHut.old.hpp. Nodes live in one
 * vector and are addressed by index: a node with children == 0 is a leaf,
 * otherwise its four children sit at children .. children + 3. Every
 * subdivision appends four nodes and records the subdivided node in
 * parents, which propagate walks backwards to sum masses bottom-up.
 *
 * The header does not compile as written (is_branch against isBranch,
 * find_quadrant against findQuadrant, a subdivide(quads) overload that
 * does not exist, missing Vec2 members); this is the evident intent.
 */
module ArenaQuadtree {
  import opened Vectors
  import opened Particles
  import opened Halving

  /** A square given by its centre and side. */
  datatype Quad = Quad(center: Vec2, size: real)

  /** The closed square centre ± size/2 on both axes. */
  predicate InQuad(q: Quad, p: Vec2) {
    q.center.x - q.size / 2.0 <= p.x <= q.center.x + q.size / 2.0 &&
    q.center.y - q.size / 2.0 <= p.y <= q.center.y + q.size / 2.0
  }

  /** std::numeric_limits<float>::max() and lowest(), the starting bounds of newContaining. */
  const FloatMax: real := 340282346638528859811704183484516925440.0
  const FloatLowest: real := -FloatMax

  /** A coordinate a finite float can hold. */
  predicate Finite(v: Vec2) {
    FloatLowest <= v.x <= FloatMax && FloatLowest <= v.y <= FloatMax
  }

  /** std::min and std::max on two floats. */
  function Min(a: real, b: real): real {
    if b < a then b else a
  }

  function Max(a: real, b: real): real {
    if a < b then b else a
  }

  /**
   * Quad::newContaining: the square centred between the extreme
   * coordinates whose side is the larger of the two spreads. It holds every
   * particle, and its side is the spread of some pair of particles; an
   * empty input keeps the starting bounds.
   */
  method NewContaining(particles: seq<ParticleState>) returns (q: Quad)
    ensures forall k :: 0 <= k < |particles| ==> InQuad(q, particles[k].position)
    ensures |particles| > 0 && (forall k :: 0 <= k < |particles| ==> Finite(particles[k].position)) ==>
      exists i, j :: 0 <= i < |particles| && 0 <= j < |particles| &&
        (particles[j].position.x - particles[i].position.x == q.size ||
         particles[j].position.y - particles[i].position.y == q.size)
    ensures |particles| == 0 ==> q == Quad(Zero, FloatLowest - FloatMax)
  {
    var minX, minY := FloatMax, FloatMax;
    var maxX, maxY := FloatLowest, FloatLowest;
    ghost var iMinX, iMinY, iMaxX, iMaxY := 0, 0, 0, 0;
    for k := 0 to |particles|
      invariant Tracked(particles, k, false, minX, maxX, iMinX, iMaxX)
      invariant Tracked(particles, k, true, minY, maxY, iMinY, iMaxY)
    {
      var p := particles[k].position;
      TrackStep(particles, k, false, minX, maxX, iMinX, iMaxX);
      TrackStep(particles, k, true, minY, maxY, iMinY, iMaxY);
      iMinX, iMinY := if p.x < minX then k else iMinX, if p.y < minY then k else iMinY;
      iMaxX, iMaxY := if p.x > maxX then k else iMaxX, if p.y > maxY then k else iMaxY;
      minX := Min(minX, p.x);
      minY := Min(minY, p.y);
      maxX := Max(maxX, p.x);
      maxY := Max(maxY, p.y);
    }
    var center := Scale(Vec2(minX + maxX, minY + maxY), 0.5);
    var size := Max(maxX - minX, maxY - minY);
    q := Quad(center, size);
    forall k | 0 <= k < |particles|
      ensures InQuad(q, particles[k].position)
    {
      assert Coord(particles[k].position, false) == particles[k].position.x;
      assert Coord(particles[k].position, true) == particles[k].position.y;
      BoxInside(minX, minY, maxX, maxY, particles[k].position);
    }
    if |particles| > 0 && (forall k :: 0 <= k < |particles| ==> Finite(particles[k].position)) {
      if maxX - minX >= maxY - minY {
        assert particles[iMaxX].position.x - particles[iMinX].position.x == q.size;
      } else {
        assert particles[iMaxY].position.y - particles[iMinY].position.y == q.size;
      }
    }
  }

  /** The x (vertical false) or y (vertical true) coordinate. */
  function Coord(v: Vec2, vertical: bool): real {
    if vertical then v.y else v.x
  }

  /**
   * The bounds newContaining has after k particles on one axis: they hold
   * every coordinate seen, are still the starting ones when none was seen,
   * and are attained at iLo and iHi once all coordinates seen are finite.
   */
  ghost predicate Tracked(particles: seq<ParticleState>, k: nat, vertical: bool, lo: real, hi: real, iLo: nat, iHi: nat)
    requires k <= |particles|
  {
    (forall j :: 0 <= j < k ==> lo <= Coord(particles[j].position, vertical) <= hi) &&
    (k == 0 ==> lo == FloatMax && hi == FloatLowest) &&
    iLo <= k && iHi <= k &&
    (k > 0 && (forall j :: 0 <= j < k ==> Finite(particles[j].position)) ==>
      iLo < k && lo == Coord(particles[iLo].position, vertical) &&
      iHi < k && hi == Coord(particles[iHi].position, vertical))
  }

  /** One turn of the loop of newContaining on one axis. */
  lemma TrackStep(particles: seq<ParticleState>, k: nat, vertical: bool, lo: real, hi: real, iLo: nat, iHi: nat)
    requires k < |particles| && Tracked(particles, k, vertical, lo, hi, iLo, iHi)
    ensures var c := Coord(particles[k].position, vertical);
      Tracked(particles, k + 1, vertical, Min(lo, c), Max(hi, c), if c < lo then k else iLo, if c > hi then k else iHi)
  {
    var c := Coord(particles[k].position, vertical);
    if forall j :: 0 <= j < k + 1 ==> Finite(particles[j].position) {
      assert Finite(particles[k].position);
    }
  }

  /** A point within the bounds lies in the square newContaining builds from them. */
  lemma BoxInside(minX: real, minY: real, maxX: real, maxY: real, p: Vec2)
    requires minX <= p.x <= maxX && minY <= p.y <= maxY
    ensures InQuad(Quad(Scale(Vec2(minX + maxX, minY + maxY), 0.5), Max(maxX - minX, maxY - minY)), p)
  {
  }

  /** Quad::findQuadrant: bit 0 says right of the centre, bit 1 says below it. */
  function FindQuadrant(q: Quad, pos: Vec2): (r: nat)
    ensures r < 4
    ensures r % 2 == 1 <==> pos.x > q.center.x
    ensures r / 2 == 1 <==> pos.y > q.center.y
  {
    (if pos.y > q.center.y then 2 else 0) + (if pos.x > q.center.x then 1 else 0)
  }

  /**
   * Quad::intoQuadrant: half the side, the centre moved a quarter side
   * left or right by bit 0 and up or down by bit 1 of the quadrant.
   */
  function IntoQuadrant(q: Quad, quadrant: nat): (r: Quad)
    requires quadrant < 4
    ensures r.size == q.size / 2.0
    ensures r.center.x == (if quadrant % 2 == 1 then q.center.x + q.size / 4.0 else q.center.x - q.size / 4.0)
    ensures r.center.y == (if quadrant / 2 == 1 then q.center.y + q.size / 4.0 else q.center.y - q.size / 4.0)
  {
    var newSize := q.size * 0.5;
    var dx := if quadrant % 2 == 1 then 0.5 * newSize else -0.5 * newSize;
    var dy := if quadrant / 2 == 1 then 0.5 * newSize else -0.5 * newSize;
    Quad(Vec2(q.center.x + dx, q.center.y + dy), newSize)
  }

  /**
   * Quad::subdivide: the four quadrants in index order. Each has half the
   * side and lies within the square, and a point of the square lies in the
   * quadrant findQuadrant names for it.
   */
  function SubdivideQuad(q: Quad): (r: seq<Quad>)
    ensures |r| == 4
    ensures forall i :: 0 <= i < 4 ==> r[i].size == q.size / 2.0
    ensures forall i, p :: 0 <= i < 4 && InQuad(r[i], p) ==> InQuad(q, p)
    ensures forall p :: InQuad(q, p) ==> InQuad(r[FindQuadrant(q, p)], p)
  {
    [IntoQuadrant(q, 0), IntoQuadrant(q, 1), IntoQuadrant(q, 2), IntoQuadrant(q, 3)]
  }

  /** A point of the square lies in the quadrant findQuadrant picks for it. */
  lemma QuadrantKeeps(q: Quad, p: Vec2)
    requires InQuad(q, p)
    ensures InQuad(IntoQuadrant(q, FindQuadrant(q, p)), p)
  {
  }

  /** Every quadrant lies inside its square. */
  lemma QuadrantInside(q: Quad, quadrant: nat, p: Vec2)
    requires quadrant < 4 && InQuad(IntoQuadrant(q, quadrant), p)
    ensures InQuad(q, p)
  {
  }

  /** Two points of one square are at most its side apart. */
  lemma SepInQuad(q: Quad, a: Vec2, b: Vec2)
    requires InQuad(q, a) && InQuad(q, b)
    ensures Sep(a, b) <= q.size
  {
  }

  /** One slot of the arena: first child index (0 for a leaf), next link, centre of mass, mass, square. */
  datatype Node = Node(children: nat, next: nat, pos: Vec2, mass: real, quad: Quad)

  /** Node(next, quad): a leaf without mass. */
  function NewNode(next: nat, quad: Quad): (r: Node)
    ensures IsLeaf(r) && IsEmpty(r) && r.next == next && r.quad == quad
  {
    Node(0, next, Zero, 0.0, quad)
  }

  /** Node::isLeaf: no children index. */
  predicate IsLeaf(n: Node) {
    n.children == 0
  }

  /** Node::isEmpty: no mass. */
  predicate IsEmpty(n: Node) {
    n.mass == 0.0
  }

  /** Quadtree::ROOT */
  const Root: nat := 0

  /**
   * The index layout subdivision builds: the root and four nodes per
   * recorded parent; the k-th parent was recorded before its children were
   * appended at 1 + 4k; a branch's children index names its parent slot.
   */
  predicate Shape(ns: seq<Node>, ps: seq<nat>) {
    |ns| == 1 + 4 * |ps| &&
    (forall k :: 0 <= k < |ps| ==> ps[k] < 1 + 4 * k) &&
    (forall k {:trigger ns[ps[k]]} :: 0 <= k < |ps| ==> ps[k] < |ns| && ns[ps[k]].children == 1 + 4 * k) &&
    (forall i :: 0 <= i < |ns| && ns[i].children != 0 ==>
      ns[i].children % 4 == 1 && ns[i].children / 4 < |ps| && ps[ns[i].children / 4] == i)
  }

  /** The j-th child of the k-th parent has the j-th quadrant of that parent's square. */
  predicate HasQuadrant(ns: seq<Node>, ps: seq<nat>, k: nat, j: nat) {
    k < |ps| && ps[k] < |ns| && j < 4 && 1 + 4 * k + j < |ns| &&
    ns[1 + 4 * k + j].quad == IntoQuadrant(ns[ps[k]].quad, j)
  }

  /**
   * Shape plus the geometry: the children of every parent have its four
   * quadrants, and every leaf with mass holds its point.
   */
  predicate ArenaOk(ns: seq<Node>, ps: seq<nat>) {
    Shape(ns, ps) &&
    (forall k, j :: 0 <= k < |ps| && 0 <= j < 4 ==> HasQuadrant(ns, ps, k, j)) &&
    (forall i :: 0 <= i < |ns| && ns[i].children == 0 && ns[i].mass != 0.0 ==> InQuad(ns[i].quad, ns[i].pos))
  }

  /** A branch's children come after it and inside the arena. */
  lemma ChildBounds(ns: seq<Node>, ps: seq<nat>, i: nat)
    requires Shape(ns, ps) && i < |ns| && ns[i].children != 0
    ensures i < ns[i].children && ns[i].children + 3 < |ns|
    ensures ns[i].children == 1 + 4 * (ns[i].children / 4)
  {
    var k := ns[i].children / 4;
    assert ps[k] == i;
  }

  /** The j-th child of a branch has the j-th quadrant of the branch's square. */
  lemma ChildQuad(ns: seq<Node>, ps: seq<nat>, i: nat, j: nat)
    requires ArenaOk(ns, ps) && i < |ns| && ns[i].children != 0 && j < 4
    ensures ns[i].children + j < |ns| && ns[ns[i].children + j].quad == IntoQuadrant(ns[i].quad, j)
  {
    ChildBounds(ns, ps, i);
    var k := ns[i].children / 4;
    assert HasQuadrant(ns, ps, k, j);
  }

  /** A leaf's mass, and nothing for a branch. */
  function Weight(n: Node): real {
    if n.children == 0 then n.mass else 0.0
  }

  /** The mass held by the leaves among the first n slots. */
  function LeafSum(ns: seq<Node>, n: nat): real
    requires n <= |ns|
  {
    if n == 0 then 0.0 else LeafSum(ns, n - 1) + Weight(ns[n - 1])
  }

  function LeafMass(ns: seq<Node>): real {
    LeafSum(ns, |ns|)
  }

  /** The leaf sum of a prefix depends on that prefix only. */
  lemma {:induction false} LeafSumAgree(a: seq<Node>, b: seq<Node>, n: nat)
    requires n <= |a| && n <= |b|
    requires forall i :: 0 <= i < n ==> a[i] == b[i]
    ensures LeafSum(a, n) == LeafSum(b, n)
  {
    if n > 0 {
      LeafSumAgree(a, b, n - 1);
    }
  }

  /** Replacing one slot changes the leaf sum by the change of its weight. */
  lemma {:induction false} LeafSumUpdate(ns: seq<Node>, i: nat, v: Node, n: nat)
    requires i < n <= |ns|
    ensures LeafSum(ns[i := v], n) == LeafSum(ns, n) - Weight(ns[i]) + Weight(v)
  {
    if n - 1 == i {
      LeafSumAgree(ns[i := v], ns, n - 1);
    } else {
      LeafSumUpdate(ns, i, v, n - 1);
    }
  }

  /** Appending a slot adds its weight. */
  lemma LeafMassAppend(ns: seq<Node>, v: Node)
    ensures LeafMass(ns + [v]) == LeafMass(ns) + Weight(v)
  {
    LeafSumAgree(ns + [v], ns, |ns|);
  }

  /** The arena after Quadtree::subdivide(node), as a value. */
  function SubdivideNodes(ns: seq<Node>, node: nat): seq<Node>
    requires node < |ns|
  {
    var c := |ns|;
    var q := ns[node].quad;
    ns[node := ns[node].(children := c)] +
      [NewNode(c + 1, IntoQuadrant(q, 0)), NewNode(c + 2, IntoQuadrant(q, 1)),
       NewNode(c + 3, IntoQuadrant(q, 2)), NewNode(ns[node].next, IntoQuadrant(q, 3))]
  }

  /** Subdivision changes only the node's children index and appends its four quadrants, linked in order. */
  lemma SubdivideLayout(ns: seq<Node>, node: nat)
    requires node < |ns|
    ensures var r := SubdivideNodes(ns, node); var c := |ns|; var q := ns[node].quad;
      |r| == c + 4 && r[node] == ns[node].(children := c) &&
      (forall i :: 0 <= i < c && i != node ==> r[i] == ns[i]) &&
      r[c] == NewNode(c + 1, IntoQuadrant(q, 0)) && r[c + 1] == NewNode(c + 2, IntoQuadrant(q, 1)) &&
      r[c + 2] == NewNode(c + 3, IntoQuadrant(q, 2)) && r[c + 3] == NewNode(ns[node].next, IntoQuadrant(q, 3))
  {
  }

  /** Subdividing a leaf keeps the layout and the geometry; the parent list gains the leaf. */
  lemma SubdivideKeeps(ns: seq<Node>, ps: seq<nat>, node: nat)
    requires ArenaOk(ns, ps) && node < |ns| && ns[node].children == 0
    ensures ArenaOk(SubdivideNodes(ns, node), ps + [node])
  {
    var r := SubdivideNodes(ns, node);
    var ps' := ps + [node];
    var c := |ns|;
    assert c % 4 == 1 && c / 4 == |ps|;
    forall i | 0 <= i < |r| && r[i].children != 0
      ensures r[i].children % 4 == 1 && r[i].children / 4 < |ps'| && ps'[r[i].children / 4] == i
    {
      if i != node {
        assert i < c && r[i] == ns[i];
      }
    }
    forall k, j | 0 <= k < |ps'| && 0 <= j < 4
      ensures HasQuadrant(r, ps', k, j)
    {
      if k < |ps| {
        assert HasQuadrant(ns, ps, k, j);
        assert r[1 + 4 * k + j].quad == ns[1 + 4 * k + j].quad;
      }
    }
  }

  /** Subdividing a leaf takes its mass out of the leaf sum; the new leaves hold nothing. */
  lemma SubdivideLeafMass(ns: seq<Node>, node: nat)
    requires node < |ns| && ns[node].children == 0
    ensures LeafMass(SubdivideNodes(ns, node)) == LeafMass(ns) - ns[node].mass
  {
    var c := |ns|;
    var q := ns[node].quad;
    var ns1 := ns[node := ns[node].(children := c)];
    LeafSumUpdate(ns, node, ns1[node], |ns|);
    var a := NewNode(c + 1, IntoQuadrant(q, 0));
    var b := NewNode(c + 2, IntoQuadrant(q, 1));
    var d := NewNode(c + 3, IntoQuadrant(q, 2));
    var e := NewNode(ns[node].next, IntoQuadrant(q, 3));
    LeafMassAppend(ns1, a);
    LeafMassAppend(ns1 + [a], b);
    LeafMassAppend(ns1 + [a] + [b], d);
    LeafMassAppend(ns1 + [a] + [b] + [d], e);
    assert ns1 + [a] + [b] + [d] + [e] == SubdivideNodes(ns, node);
  }

  /** Giving a leaf a point and a mass keeps the arena well formed when a massive point lies in its square. */
  lemma SetLeafKeeps(ns: seq<Node>, ps: seq<nat>, i: nat, pos: Vec2, mass: real)
    requires ArenaOk(ns, ps) && i < |ns| && ns[i].children == 0
    requires mass != 0.0 ==> InQuad(ns[i].quad, pos)
    ensures ArenaOk(ns[i := ns[i].(pos := pos, mass := mass)], ps)
    ensures LeafMass(ns[i := ns[i].(pos := pos, mass := mass)]) == LeafMass(ns) - ns[i].mass + mass
  {
    var r := ns[i := ns[i].(pos := pos, mass := mass)];
    LeafSumUpdate(ns, i, r[i], |ns|);
    forall k, j | 0 <= k < |ps| && 0 <= j < 4
      ensures HasQuadrant(r, ps, k, j)
    {
      assert HasQuadrant(ns, ps, k, j);
    }
  }

  /** Filling two different leaves, each with a point of its own square, in turn. */
  lemma SetTwoLeaves(ns: seq<Node>, ps: seq<nat>, i: nat, a: Vec2, ma: real, j: nat, b: Vec2, mb: real)
    requires ArenaOk(ns, ps) && i < |ns| && j < |ns| && i != j && ns[i].children == 0 && ns[j].children == 0
    requires InQuad(ns[i].quad, a) && InQuad(ns[j].quad, b)
    ensures var r := ns[i := ns[i].(pos := a, mass := ma)];
      var r' := r[j := r[j].(pos := b, mass := mb)];
      ArenaOk(r', ps) && LeafMass(r') == LeafMass(ns) - ns[i].mass - ns[j].mass + ma + mb
  {
    SetLeafKeeps(ns, ps, i, a, ma);
    var r := ns[i := ns[i].(pos := a, mass := ma)];
    assert r[j] == ns[j];
    SetLeafKeeps(r, ps, j, b, mb);
  }

  /**
   * The leaf the descent of insert reaches from slot i: at each branch,
   * the child whose quadrant findQuadrant picks.
   */
  function Descend(ns: seq<Node>, ps: seq<nat>, i: nat, pos: Vec2): (r: nat)
    requires Shape(ns, ps) && i < |ns|
    ensures i <= r < |ns| && IsLeaf(ns[r])
    decreases |ns| - i
  {
    if IsLeaf(ns[i]) then i
    else
      ChildBounds(ns, ps, i);
      Descend(ns, ps, ns[i].children + FindQuadrant(ns[i].quad, pos), pos)
  }

  /** A point of a node's square stays in the squares along its descent. */
  lemma {:induction false} DescendKeeps(ns: seq<Node>, ps: seq<nat>, i: nat, pos: Vec2)
    requires ArenaOk(ns, ps) && i < |ns| && InQuad(ns[i].quad, pos)
    ensures InQuad(ns[Descend(ns, ps, i, pos)].quad, pos)
    decreases |ns| - i
  {
    if ns[i].children != 0 {
      var j := FindQuadrant(ns[i].quad, pos);
      ChildQuad(ns, ps, i, j);
      QuadrantKeeps(ns[i].quad, pos);
      ChildBounds(ns, ps, i);
      DescendKeeps(ns, ps, ns[i].children + j, pos);
    }
  }

  /** One step of the descent: the child picked for pos is later in the arena and leads to the same leaf. */
  lemma DescendStep(ns: seq<Node>, ps: seq<nat>, i: nat, pos: Vec2)
    requires Shape(ns, ps) && i < |ns| && ns[i].children != 0
    ensures var c := ns[i].children + FindQuadrant(ns[i].quad, pos);
      i < c < |ns| && Descend(ns, ps, c, pos) == Descend(ns, ps, i, pos)
  {
    ChildBounds(ns, ps, i);
  }

  /** The mass propagate gives slot i: a leaf keeps its own, a branch takes the sum of its children's. */
  function PMass(ns: seq<Node>, ps: seq<nat>, i: nat): real
    requires Shape(ns, ps) && i < |ns|
    decreases |ns| - i
  {
    if ns[i].children == 0 then ns[i].mass
    else
      ChildBounds(ns, ps, i);
      var c := ns[i].children;
      PMass(ns, ps, c) + PMass(ns, ps, c + 1) + PMass(ns, ps, c + 2) + PMass(ns, ps, c + 3)
  }

  /**
   * The position propagate gives slot i: a leaf keeps its own, a branch
   * takes the sum of its children's positions weighted by their masses,
   * divided by its mass when that is not zero.
   */
  function PPos(ns: seq<Node>, ps: seq<nat>, i: nat): Vec2
    requires Shape(ns, ps) && i < |ns|
    decreases |ns| - i
  {
    if ns[i].children == 0 then ns[i].pos
    else
      ChildBounds(ns, ps, i);
      var c := ns[i].children;
      var moment := Add(Add(Add(Scale(PPos(ns, ps, c), PMass(ns, ps, c)),
                                Scale(PPos(ns, ps, c + 1), PMass(ns, ps, c + 1))),
                            Scale(PPos(ns, ps, c + 2), PMass(ns, ps, c + 2))),
                        Scale(PPos(ns, ps, c + 3), PMass(ns, ps, c + 3)));
      var m := PMass(ns, ps, i);
      if m != 0.0 then Quotient(moment, m) else moment
  }

  /** The last four slots of a non-trivial arena are leaves: they are the children of the last parent. */
  lemma LastChildrenAreLeaves(ns: seq<Node>, ps: seq<nat>, j: nat)
    requires Shape(ns, ps) && |ps| > 0 && 4 * |ps| - 3 <= j < |ns|
    ensures ns[j].children == 0
  {
    if ns[j].children != 0 {
      assert false;
    }
  }

  /**
   * The arena before the last subdivision: the last four slots dropped and
   * the last parent a leaf again, holding their combined mass.
   */
  function Unsubdivide(ns: seq<Node>, ps: seq<nat>): seq<Node>
    requires Shape(ns, ps) && |ps| > 0
  {
    var c := |ns| - 4;
    var p := ps[|ps| - 1];
    ns[..c][p := ns[p].(children := 0, mass := ns[c].mass + ns[c + 1].mass + ns[c + 2].mass + ns[c + 3].mass)]
  }

  lemma UnsubdivideShape(ns: seq<Node>, ps: seq<nat>)
    requires Shape(ns, ps) && |ps| > 0
    ensures Shape(Unsubdivide(ns, ps), ps[..|ps| - 1])
  {
    var r := Unsubdivide(ns, ps);
    var ps' := ps[..|ps| - 1];
    var last := |ps| - 1;
    var p := ps[last];
    forall k | 0 <= k < |ps'|
      ensures ps'[k] < 1 + 4 * k && r[ps'[k]].children == 1 + 4 * k
    {
      assert ps[k] != p by {
        assert ns[ps[k]].children == 1 + 4 * k && ns[p].children == 1 + 4 * last;
      }
    }
    forall i | 0 <= i < |r| && r[i].children != 0
      ensures r[i].children % 4 == 1 && r[i].children / 4 < |ps'| && ps'[r[i].children / 4] == i
    {
      assert i != p && r[i] == ns[i];
      assert ns[i].children / 4 != last;
    }
  }

  /** Removing the last subdivision keeps the leaf mass: the parent now carries its children's. */
  lemma UnsubdivideLeafMass(ns: seq<Node>, ps: seq<nat>)
    requires Shape(ns, ps) && |ps| > 0
    ensures LeafMass(Unsubdivide(ns, ps)) == LeafMass(ns)
  {
    var c := |ns| - 4;
    var p := ps[|ps| - 1];
    var r := Unsubdivide(ns, ps);
    LastChildrenAreLeaves(ns, ps, c);
    LastChildrenAreLeaves(ns, ps, c + 1);
    LastChildrenAreLeaves(ns, ps, c + 2);
    LastChildrenAreLeaves(ns, ps, c + 3);
    LeafSumAgree(ns[..c], ns, c);
    assert p < c && ns[p].children != 0;
    LeafSumUpdate(ns[..c], p, r[p], c);
    assert LeafSum(ns, c + 1) == LeafSum(ns, c) + ns[c].mass;
    assert LeafSum(ns, c + 2) == LeafSum(ns, c + 1) + ns[c + 1].mass;
    assert LeafSum(ns, c + 3) == LeafSum(ns, c + 2) + ns[c + 2].mass;
    assert LeafSum(ns, c + 4) == LeafSum(ns, c + 3) + ns[c + 3].mass;
  }

  /** Below the unsubdivided arena, every slot gets the same propagated mass as before. */
  lemma {:induction false} UnsubdividePMass(ns: seq<Node>, ps: seq<nat>, i: nat)
    requires Shape(ns, ps) && |ps| > 0 && i < |ns| - 4
    ensures Shape(Unsubdivide(ns, ps), ps[..|ps| - 1]) &&
      PMass(Unsubdivide(ns, ps), ps[..|ps| - 1], i) == PMass(ns, ps, i)
    decreases |ns| - i
  {
    UnsubdivideShape(ns, ps);
    var r := Unsubdivide(ns, ps);
    var ps' := ps[..|ps| - 1];
    var c := |ns| - 4;
    var p := ps[|ps| - 1];
    if i == p {
      LastChildrenAreLeaves(ns, ps, c);
      LastChildrenAreLeaves(ns, ps, c + 1);
      LastChildrenAreLeaves(ns, ps, c + 2);
      LastChildrenAreLeaves(ns, ps, c + 3);
      assert ns[i].children == c;
    } else if ns[i].children != 0 {
      ChildBounds(ns, ps, i);
      var d := ns[i].children;
      assert r[i] == ns[i];
      assert d / 4 != |ps| - 1;
      assert d + 3 < c;
      UnsubdividePMass(ns, ps, d);
      UnsubdividePMass(ns, ps, d + 1);
      UnsubdividePMass(ns, ps, d + 2);
      UnsubdividePMass(ns, ps, d + 3);
    } else {
      assert r[i] == ns[i];
    }
  }

  /** After propagate the root carries the mass of all the leaves. */
  lemma {:induction false} RootMassIsLeafMass(ns: seq<Node>, ps: seq<nat>)
    requires Shape(ns, ps)
    ensures PMass(ns, ps, Root) == LeafMass(ns)
    decreases |ps|
  {
    if |ps| == 0 {
      assert ns[Root].children == 0;
      assert LeafSum(ns, 1) == LeafSum(ns, 0) + Weight(ns[Root]);
    } else {
      UnsubdivideShape(ns, ps);
      UnsubdivideLeafMass(ns, ps);
      UnsubdividePMass(ns, ps, Root);
      RootMassIsLeafMass(Unsubdivide(ns, ps), ps[..|ps| - 1]);
    }
  }

  /** Slots below |ns0| other than l are as in ns0, and l became the branch whose children start at |ns0|. */
  ghost predicate Frame(ns0: seq<Node>, l: nat, ns: seq<Node>) {
    l < |ns0| < |ns| && ns[l] == ns0[l].(children := |ns0|) &&
    forall i :: 0 <= i < |ns0| && i != l ==> ns[i] == ns0[i]
  }

  /**
   * The state of the split loop of insert, started at the occupied leaf l
   * of ns0 for the new point pos: the arena is well formed, node is a leaf
   * whose square holds both points, and the leaves have lost exactly the
   * old occupant's mass, unless node is still l itself.
   */
  ghost predicate Splitting(ns0: seq<Node>, ps0: seq<nat>, l: nat, pos: Vec2, ns: seq<Node>, ps: seq<nat>, node: nat) {
    l < |ns0| && ArenaOk(ns, ps) && node < |ns| && ns[node].children == 0 &&
    InQuad(ns[node].quad, ns0[l].pos) && InQuad(ns[node].quad, pos) &&
    LeafMass(ns) == LeafMass(ns0) - ns0[l].mass + ns[node].mass &&
    |ns0| <= |ns| && |ps0| <= |ps| && ps[..|ps0|] == ps0 &&
    ((node == l && ns == ns0 && ps == ps0) || (|ns0| <= node && ns[node].mass == 0.0 && Frame(ns0, l, ns)))
  }

  /**
   * How a split insert ends: l is now a branch, the slots before it are
   * unchanged, and two different new leaves hold the old occupant and the
   * new point with their masses.
   */
  ghost predicate SplitDone(ns0: seq<Node>, ps0: seq<nat>, l: nat, pos: Vec2, mass: real, ns: seq<Node>, ps: seq<nat>) {
    Frame(ns0, l, ns) && |ps0| < |ps| && ps[..|ps0|] == ps0 &&
    exists n1, n2 :: |ns0| <= n1 < |ns| && |ns0| <= n2 < |ns| && n1 != n2 &&
      ns[n1].children == 0 && ns[n1].pos == ns0[l].pos && ns[n1].mass == ns0[l].mass &&
      ns[n2].children == 0 && ns[n2].pos == pos && ns[n2].mass == mass
  }

  /**
   * What insert(pos, mass) does to a well-formed arena ns0: the leaf l the
   * descent reaches takes the point when empty, adds the mass when it holds
   * the same point, and is split otherwise; the arena stays well formed and
   * its leaves gain exactly mass.
   */
  ghost predicate Inserted(ns0: seq<Node>, ps0: seq<nat>, pos: Vec2, mass: real, ns: seq<Node>, ps: seq<nat>)
    requires Shape(ns0, ps0)
  {
    var l := Descend(ns0, ps0, Root, pos);
    var leaf := ns0[l];
    ArenaOk(ns, ps) && LeafMass(ns) == LeafMass(ns0) + mass &&
    if leaf.mass == 0.0 then
      ns == ns0[l := leaf.(pos := pos, mass := mass)] && ps == ps0
    else if leaf.pos == pos then
      ns == ns0[l := leaf.(mass := leaf.mass + mass)] && ps == ps0
    else
      SplitDone(ns0, ps0, l, pos, mass, ns, ps)
  }

  /** The split loop starts in its invariant at an occupied leaf holding a different point. */
  lemma SplitStart(ns0: seq<Node>, ps0: seq<nat>, l: nat, pos: Vec2)
    requires ArenaOk(ns0, ps0) && l < |ns0| && ns0[l].children == 0 && ns0[l].mass != 0.0
    requires InQuad(ns0[l].quad, pos)
    ensures Splitting(ns0, ps0, l, pos, ns0, ps0, l)
  {
  }

  /**
   * One round of the split loop when both points fall in the same
   * quadrant: the leaf is subdivided and the loop moves to that quadrant,
   * whose square is half as wide.
   */
  lemma SplitDeeper(ns0: seq<Node>, ps0: seq<nat>, l: nat, pos: Vec2, ns: seq<Node>, ps: seq<nat>, node: nat)
    requires Splitting(ns0, ps0, l, pos, ns, ps, node) && ns0[l].pos != pos
    requires var q := SubdivideNodes(ns, node)[node].quad; FindQuadrant(q, ns0[l].pos) == FindQuadrant(q, pos)
    ensures var r := SubdivideNodes(ns, node);
      var c := |ns| + FindQuadrant(r[node].quad, pos);
      c < |r| && Splitting(ns0, ps0, l, pos, r, ps + [node], c) &&
      Levels(r[c].quad.size, Sep(ns0[l].pos, pos)) < Levels(ns[node].quad.size, Sep(ns0[l].pos, pos))
  {
    var q := ns[node].quad;
    var p := ns0[l].pos;
    var r := SubdivideNodes(ns, node);
    SubdivideLayout(ns, node);
    assert r[node].quad == q;
    var j := FindQuadrant(q, pos);
    var c := |ns| + j;
    SubdivideKeeps(ns, ps, node);
    SubdivideLeafMass(ns, node);
    assert r[c].quad == IntoQuadrant(q, j);
    QuadrantKeeps(q, p);
    QuadrantKeeps(q, pos);
    SepInQuad(r[c].quad, p, pos);
    LevelsDecrease(q.size, Sep(p, pos));
    assert (ps + [node])[..|ps0|] == ps0 by {
      assert ps[..|ps0|] == ps0;
    }
    assert Frame(ns0, l, r) by {
      if node != l {
        assert Frame(ns0, l, ns);
      }
    }
  }

  /**
   * The arena after the last round of the split loop: node is subdivided,
   * the old point p with mass m goes to the leaf of its quadrant, and pos
   * with mass to the leaf of its own.
   */
  function Separated(ns: seq<Node>, node: nat, p: Vec2, m: real, pos: Vec2, mass: real): seq<Node>
    requires node < |ns|
  {
    var r := SubdivideNodes(ns, node);
    var n1 := |ns| + FindQuadrant(r[node].quad, p);
    var n2 := |ns| + FindQuadrant(r[node].quad, pos);
    var r' := r[n1 := r[n1].(pos := p, mass := m)];
    r'[n2 := r'[n2].(pos := pos, mass := mass)]
  }

  /**
   * The last round of the split loop, when the points fall in different
   * quadrants, leaves a well-formed arena whose leaves hold the old mass
   * plus the new one.
   */
  lemma SplitApart(ns0: seq<Node>, ps0: seq<nat>, l: nat, pos: Vec2, mass: real, ns: seq<Node>, ps: seq<nat>, node: nat)
    requires Splitting(ns0, ps0, l, pos, ns, ps, node) && ns0[l].mass != 0.0
    requires var q := SubdivideNodes(ns, node)[node].quad; FindQuadrant(q, ns0[l].pos) != FindQuadrant(q, pos)
    ensures var r := Separated(ns, node, ns0[l].pos, ns0[l].mass, pos, mass);
      ArenaOk(r, ps + [node]) && LeafMass(r) == LeafMass(ns0) + mass
  {
    var q := ns[node].quad;
    var p := ns0[l].pos;
    var m := ns0[l].mass;
    var r := SubdivideNodes(ns, node);
    SubdivideLayout(ns, node);
    assert r[node].quad == q;
    var ps' := ps + [node];
    var n1 := |ns| + FindQuadrant(q, p);
    var n2 := |ns| + FindQuadrant(q, pos);
    SubdivideKeeps(ns, ps, node);
    SubdivideLeafMass(ns, node);
    QuadrantKeeps(q, p);
    QuadrantKeeps(q, pos);
    assert r[n1].quad == IntoQuadrant(q, FindQuadrant(q, p)) && r[n1].children == 0 && r[n1].mass == 0.0;
    assert r[n2].quad == IntoQuadrant(q, FindQuadrant(q, pos)) && r[n2].children == 0 && r[n2].mass == 0.0;
    SetTwoLeaves(r, ps', n1, p, m, n2, pos, mass);
    var r' := r[n1 := r[n1].(pos := p, mass := m)];
    assert Separated(ns, node, p, m, pos, mass) == r'[n2 := r'[n2].(pos := pos, mass := mass)];
  }

  /** The same last round ends as SplitDone says: two fresh leaves take the two points. */
  lemma SplitApartDone(ns0: seq<Node>, ps0: seq<nat>, l: nat, pos: Vec2, mass: real, ns: seq<Node>, ps: seq<nat>, node: nat)
    requires Splitting(ns0, ps0, l, pos, ns, ps, node)
    requires var q := SubdivideNodes(ns, node)[node].quad; FindQuadrant(q, ns0[l].pos) != FindQuadrant(q, pos)
    ensures SplitDone(ns0, ps0, l, pos, mass, Separated(ns, node, ns0[l].pos, ns0[l].mass, pos, mass), ps + [node])
  {
    var q := ns[node].quad;
    var p := ns0[l].pos;
    var r := SubdivideNodes(ns, node);
    SubdivideLayout(ns, node);
    assert r[node].quad == q;
    var n1 := |ns| + FindQuadrant(q, p);
    var n2 := |ns| + FindQuadrant(q, pos);
    var r'' := Separated(ns, node, p, ns0[l].mass, pos, mass);
    assert (ps + [node])[..|ps0|] == ps0 by {
      assert ps[..|ps0|] == ps0;
    }
    assert Frame(ns0, l, r) by {
      if node != l {
        assert Frame(ns0, l, ns);
      }
    }
    assert Frame(ns0, l, r'');
    assert r''[n1].pos == p && r''[n2].pos == pos;
  }

  /**
   * One round of the split loop when both points fall in the same
   * quadrant, on the geometry alone: the quadrant they share is a fresh
   * slot whose square holds both and is half as wide.
   */
  lemma SplitStep(ns: seq<Node>, node: nat, p: Vec2, pos: Vec2)
    requires node < |ns| && p != pos && InQuad(ns[node].quad, p) && InQuad(ns[node].quad, pos)
    requires var q := SubdivideNodes(ns, node)[node].quad; FindQuadrant(q, p) == FindQuadrant(q, pos)
    ensures var r := SubdivideNodes(ns, node);
      var c := |ns| + FindQuadrant(r[node].quad, pos);
      c < |r| && InQuad(r[c].quad, p) && InQuad(r[c].quad, pos) &&
      Levels(r[c].quad.size, Sep(p, pos)) < Levels(ns[node].quad.size, Sep(p, pos))
  {
    var q := ns[node].quad;
    var r := SubdivideNodes(ns, node);
    SubdivideLayout(ns, node);
    assert r[node].quad == q;
    var c := |ns| + FindQuadrant(q, pos);
    assert r[c].quad == IntoQuadrant(q, FindQuadrant(q, pos));
    QuadrantKeeps(q, p);
    QuadrantKeeps(q, pos);
    SepInQuad(r[c].quad, p, pos);
    LevelsDecrease(q.size, Sep(p, pos));
  }

  /**
   * The split loop of insert on values: subdivide the leaf node until the
   * old point p and the new point pos fall in different quadrants, then
   * give each its own fresh leaf. Every round adds one parent and four
   * slots.
   */
  function SplitArena(ns: seq<Node>, ps: seq<nat>, node: nat, p: Vec2, m: real, pos: Vec2, mass: real): (r: (seq<Node>, seq<nat>))
    requires node < |ns| && p != pos && InQuad(ns[node].quad, p) && InQuad(ns[node].quad, pos)
    ensures |ps| < |r.1| && |r.0| == |ns| + 4 * (|r.1| - |ps|)
    decreases Levels(ns[node].quad.size, Sep(p, pos)), 1
  {
    SplitRound(ns, ps, node, p, m, pos, mass)
  }

  /** One round of the split loop: subdivide, then separate the points or go on into their common quadrant. */
  function SplitRound(ns: seq<Node>, ps: seq<nat>, node: nat, p: Vec2, m: real, pos: Vec2, mass: real): (r: (seq<Node>, seq<nat>))
    requires node < |ns| && p != pos && InQuad(ns[node].quad, p) && InQuad(ns[node].quad, pos)
    ensures |ps| < |r.1| && |r.0| == |ns| + 4 * (|r.1| - |ps|)
    decreases Levels(ns[node].quad.size, Sep(p, pos)), 0
  {
    var r := SubdivideNodes(ns, node);
    var q := r[node].quad;
    if FindQuadrant(q, p) == FindQuadrant(q, pos) then
      SplitStep(ns, node, p, pos);
      SplitArena(r, ps + [node], |ns| + FindQuadrant(q, pos), p, m, pos, mass)
    else
      (Separated(ns, node, p, m, pos, mass), ps + [node])
  }

  /** The two ways one round of SplitArena goes, stated for the split loop of insert. */
  lemma SplitArenaDeeper(ns: seq<Node>, ps: seq<nat>, node: nat, p: Vec2, m: real, pos: Vec2, mass: real)
    requires node < |ns| && p != pos && InQuad(ns[node].quad, p) && InQuad(ns[node].quad, pos)
    requires var q := SubdivideNodes(ns, node)[node].quad; FindQuadrant(q, p) == FindQuadrant(q, pos)
    ensures var r := SubdivideNodes(ns, node);
      var c := |ns| + FindQuadrant(r[node].quad, p);
      c < |r| && InQuad(r[c].quad, p) && InQuad(r[c].quad, pos) &&
      Levels(r[c].quad.size, Sep(p, pos)) < Levels(ns[node].quad.size, Sep(p, pos)) &&
      SplitArena(r, ps + [node], c, p, m, pos, mass) == SplitArena(ns, ps, node, p, m, pos, mass)
  {
    SplitStep(ns, node, p, pos);
  }

  lemma SplitArenaApart(ns: seq<Node>, ps: seq<nat>, node: nat, p: Vec2, m: real, pos: Vec2, mass: real)
    requires node < |ns| && p != pos && InQuad(ns[node].quad, p) && InQuad(ns[node].quad, pos)
    requires var q := SubdivideNodes(ns, node)[node].quad; FindQuadrant(q, p) != FindQuadrant(q, pos)
    ensures SplitArena(ns, ps, node, p, m, pos, mass) == (Separated(ns, node, p, m, pos, mass), ps + [node])
  {
  }

  /**
   * insert(pos, mass) on values: the arena and parent list after the
   * descent, then the empty-leaf, same-point or split case.
   */
  function InsertArena(ns: seq<Node>, ps: seq<nat>, pos: Vec2, mass: real): (r: (seq<Node>, seq<nat>))
    requires ArenaOk(ns, ps) && InQuad(ns[Root].quad, pos)
    ensures |ps| <= |r.1| && |r.0| == |ns| + 4 * (|r.1| - |ps|)
  {
    var l := Descend(ns, ps, Root, pos);
    DescendKeeps(ns, ps, Root, pos);
    var leaf := ns[l];
    if IsEmpty(leaf) then (ns[l := leaf.(pos := pos, mass := mass)], ps)
    else if leaf.pos == pos then (ns[l := leaf.(mass := leaf.mass + mass)], ps)
    else SplitArena(ns, ps, l, leaf.pos, leaf.mass, pos, mass)
  }

  /** The split loop, run from a state of Splitting, ends as SplitDone says with the mass added. */
  lemma {:induction false} SplitArenaDone(ns0: seq<Node>, ps0: seq<nat>, l: nat, pos: Vec2, mass: real,
                                          ns: seq<Node>, ps: seq<nat>, node: nat)
    requires Splitting(ns0, ps0, l, pos, ns, ps, node) && ns0[l].mass != 0.0 && ns0[l].pos != pos
    ensures var r := SplitArena(ns, ps, node, ns0[l].pos, ns0[l].mass, pos, mass);
      ArenaOk(r.0, r.1) && LeafMass(r.0) == LeafMass(ns0) + mass &&
      SplitDone(ns0, ps0, l, pos, mass, r.0, r.1)
    decreases Levels(ns[node].quad.size, Sep(ns0[l].pos, pos))
  {
    var q := SubdivideNodes(ns, node)[node].quad;
    if FindQuadrant(q, ns0[l].pos) == FindQuadrant(q, pos) {
      SplitDeeper(ns0, ps0, l, pos, ns, ps, node);
      SplitArenaDone(ns0, ps0, l, pos, mass, SubdivideNodes(ns, node), ps + [node], |ns| + FindQuadrant(q, pos));
    } else {
      SplitApart(ns0, ps0, l, pos, mass, ns, ps, node);
      SplitApartDone(ns0, ps0, l, pos, mass, ns, ps, node);
    }
  }

  /**
   * What insert does meets Inserted: the arena stays well formed, its
   * leaves gain exactly mass, and the leaf the descent reaches takes the
   * point, adds the mass, or is split.
   */
  lemma InsertArenaInserted(ns: seq<Node>, ps: seq<nat>, pos: Vec2, mass: real)
    requires ArenaOk(ns, ps) && InQuad(ns[Root].quad, pos)
    ensures var r := InsertArena(ns, ps, pos, mass); Inserted(ns, ps, pos, mass, r.0, r.1)
  {
    var l := Descend(ns, ps, Root, pos);
    DescendKeeps(ns, ps, Root, pos);
    var leaf := ns[l];
    if leaf.mass == 0.0 {
      SetLeafKeeps(ns, ps, l, pos, mass);
    } else if leaf.pos == pos {
      SetLeafKeeps(ns, ps, l, pos, leaf.mass + mass);
      assert leaf.(pos := pos, mass := leaf.mass + mass) == leaf.(mass := leaf.mass + mass);
    } else {
      SplitStart(ns, ps, l, pos);
      SplitArenaDone(ns, ps, l, pos, mass, ns, ps, l);
    }
  }

  /** The children of the k-th parent are leaves or parents recorded after it. */
  lemma ChildrenLater(ns: seq<Node>, ps: seq<nat>, k: nat, j: nat)
    requires Shape(ns, ps) && k < |ps| && j < 4
    ensures 1 + 4 * k + j < |ns|
    ensures ns[1 + 4 * k + j].children != 0 ==> ns[1 + 4 * k + j].children / 4 > k
  {
    var i := 1 + 4 * k + j;
    if ns[i].children != 0 {
      var k' := ns[i].children / 4;
      assert ps[k'] == i && ps[k'] < 1 + 4 * k';
    }
  }

  /** Slot i after propagate: the propagated centre of mass and mass, children, next link and square untouched. */
  function Propagated(ns: seq<Node>, ps: seq<nat>, i: nat): Node
    requires Shape(ns, ps) && i < |ns|
  {
    ns[i].(pos := PPos(ns, ps, i), mass := PMass(ns, ps, i))
  }

  /** Every slot's propagated value. */
  ghost function Final(ns0: seq<Node>, ps0: seq<nat>): (t: seq<Node>)
    requires Shape(ns0, ps0)
    ensures |t| == |ns0| && forall i :: 0 <= i < |ns0| ==> t[i] == Propagated(ns0, ps0, i)
  {
    seq(|ns0|, i requires 0 <= i < |ns0| => Propagated(ns0, ps0, i))
  }

  /**
   * The parents from the k-th on, and every leaf, hold their values in t;
   * every other slot is as in ns0.
   */
  ghost predicate DoneFrom(ns0: seq<Node>, ps0: seq<nat>, t: seq<Node>, ns: seq<Node>, k: nat)
    requires Shape(ns0, ps0)
  {
    |ns| == |ns0| && |t| == |ns0| && k <= |ps0| &&
    forall i :: 0 <= i < |ns| ==>
      ns[i] == (if ns0[i].children != 0 && ns0[i].children / 4 < k then ns0[i] else t[i])
  }

  /** propagate has handled the parents from the k-th on. */
  ghost predicate PropagatedFrom(ns0: seq<Node>, ps0: seq<nat>, ns: seq<Node>, k: nat)
    requires Shape(ns0, ps0)
  {
    DoneFrom(ns0, ps0, Final(ns0, ps0), ns, k)
  }

  /**
   * The parent handled next is still as in ns0 and its four children
   * already hold their values; writing the parent's own carries the
   * invariant one parent down.
   */
  lemma DoneNext(ns0: seq<Node>, ps0: seq<nat>, t: seq<Node>, ns: seq<Node>, k: nat)
    requires Shape(ns0, ps0) && DoneFrom(ns0, ps0, t, ns, k) && 0 < k
    ensures var node := ps0[k - 1]; var c := 1 + 4 * (k - 1);
      node < |ns| && ns[node] == ns0[node] && ns0[node].children == c && c + 3 < |ns| &&
      ns[c] == t[c] && ns[c + 1] == t[c + 1] && ns[c + 2] == t[c + 2] && ns[c + 3] == t[c + 3] &&
      DoneFrom(ns0, ps0, t, ns[node := t[node]], k - 1)
  {
    var node := ps0[k - 1];
    assert ns0[node].children / 4 == k - 1;
    ChildrenLater(ns0, ps0, k - 1, 0);
    ChildrenLater(ns0, ps0, k - 1, 1);
    ChildrenLater(ns0, ps0, k - 1, 2);
    ChildrenLater(ns0, ps0, k - 1, 3);
    var ns' := ns[node := t[node]];
    forall i | 0 <= i < |ns'|
      ensures ns'[i] == (if ns0[i].children != 0 && ns0[i].children / 4 < k - 1 then ns0[i] else t[i])
    {
      if i != node && ns0[i].children != 0 {
        assert ps0[ns0[i].children / 4] == i;
      }
    }
  }

  /**
   * One step of propagate on values: node takes the mass of the four nodes
   * from its children index on, and their mass-weighted mean position, or
   * their weighted sum when the masses sum to zero.
   */
  function Combined(ns: seq<Node>, node: nat): (r: Node)
    requires node < |ns| && ns[node].children + 3 < |ns|
    ensures var i := ns[node].children;
      r.mass == ns[i].mass + ns[i + 1].mass + ns[i + 2].mass + ns[i + 3].mass
    ensures var i := ns[node].children;
      r.mass != 0.0 ==> Scale(r.pos, r.mass) == Add(Add(Add(Scale(ns[i].pos, ns[i].mass), Scale(ns[i + 1].pos, ns[i + 1].mass)),
                                                      Scale(ns[i + 2].pos, ns[i + 2].mass)), Scale(ns[i + 3].pos, ns[i + 3].mass))
    ensures r.children == ns[node].children && r.next == ns[node].next && r.quad == ns[node].quad
  {
    var i := ns[node].children;
    var moment := Add(Add(Add(Scale(ns[i].pos, ns[i].mass), Scale(ns[i + 1].pos, ns[i + 1].mass)),
                          Scale(ns[i + 2].pos, ns[i + 2].mass)), Scale(ns[i + 3].pos, ns[i + 3].mass));
    var mass := ns[i].mass + ns[i + 1].mass + ns[i + 2].mass + ns[i + 3].mass;
    ns[node].(pos := if mass != 0.0 then Quotient(moment, mass) else moment, mass := mass)
  }

  /** Before the loop every leaf already holds its propagated value. */
  lemma PropagatedStart(ns0: seq<Node>, ps0: seq<nat>)
    requires Shape(ns0, ps0)
    ensures PropagatedFrom(ns0, ps0, ns0, |ps0|)
  {
    forall i | 0 <= i < |ns0| && ns0[i].children == 0
      ensures ns0[i] == Propagated(ns0, ps0, i)
    {
      assert PPos(ns0, ps0, i) == ns0[i].pos && PMass(ns0, ps0, i) == ns0[i].mass;
    }
  }

  /** A branch combined from children that hold their propagated values gets its own propagated value. */
  lemma BranchCombined(ns0: seq<Node>, ps0: seq<nat>, ns: seq<Node>, node: nat)
    requires Shape(ns0, ps0) && node < |ns0| == |ns| && ns[node] == ns0[node]
    requires ns0[node].children != 0 && ns0[node].children + 3 < |ns0|
    requires var c := ns0[node].children;
      ns[c] == Propagated(ns0, ps0, c) && ns[c + 1] == Propagated(ns0, ps0, c + 1) &&
      ns[c + 2] == Propagated(ns0, ps0, c + 2) && ns[c + 3] == Propagated(ns0, ps0, c + 3)
    ensures Combined(ns, node) == Propagated(ns0, ps0, node)
  {
    ChildBounds(ns0, ps0, node);
    var c := ns0[node].children;
    assert PMass(ns0, ps0, node) == ns[c].mass + ns[c + 1].mass + ns[c + 2].mass + ns[c + 3].mass;
  }

  /** Combining the k-th parent from its children, once they are done, gives it its propagated value. */
  lemma CombineStep(ns0: seq<Node>, ps0: seq<nat>, ns: seq<Node>, k: nat)
    requires Shape(ns0, ps0) && PropagatedFrom(ns0, ps0, ns, k) && 0 < k
    ensures ps0[k - 1] < |ns| && ns[ps0[k - 1]].children + 3 < |ns|
    ensures PropagatedFrom(ns0, ps0, ns[ps0[k - 1] := Combined(ns, ps0[k - 1])], k - 1)
  {
    var t := Final(ns0, ps0);
    DoneNext(ns0, ps0, t, ns, k);
    var node := ps0[k - 1];
    BranchCombined(ns0, ps0, ns, node);
    assert Combined(ns, node) == t[node];
  }

  /**
   * Once every parent is handled each slot holds its propagated value, the
   * root the mass of all leaves; the layout is kept, and the geometry when
   * the arena had it, since only centres and masses change.
   */
  lemma PropagatedKeeps(ns0: seq<Node>, ps0: seq<nat>, ns: seq<Node>)
    requires Shape(ns0, ps0) && PropagatedFrom(ns0, ps0, ns, 0)
    ensures |ns| == |ns0| && forall i :: 0 <= i < |ns| ==> ns[i] == Propagated(ns0, ps0, i)
    ensures ns[Root].mass == LeafMass(ns0)
    ensures Shape(ns, ps0)
    ensures ArenaOk(ns0, ps0) ==> ArenaOk(ns, ps0)
  {
    RootMassIsLeafMass(ns0, ps0);
    assert forall i :: 0 <= i < |ns| ==> ns[i] == Propagated(ns0, ps0, i);
    assert forall i :: 0 <= i < |ns| ==> ns[i].children == ns0[i].children && ns[i].quad == ns0[i].quad;
    assert forall i :: 0 <= i < |ns| && ns[i].children == 0 ==> ns[i] == ns0[i];
    if ArenaOk(ns0, ps0) {
      forall k, j | 0 <= k < |ps0| && 0 <= j < 4
        ensures HasQuadrant(ns, ps0, k, j)
      {
        assert HasQuadrant(ns0, ps0, k, j);
      }
    }
  }

  /**
   * Quadtree: the node arena, the parent list, and the opening-angle and
   * softening constants squared (used only by acc, which is not modelled).
   */
  class Quadtree {
    var tSq: real
    var eSq: real
    var nodes: seq<Node>
    var parents: seq<nat>

    /** Quadtree(theta, epsilon): no nodes yet. */
    constructor(theta: real, epsilon: real)
      ensures tSq == theta * theta && eSq == epsilon * epsilon
      ensures nodes == [] && parents == []
    {
      tSq := theta * theta;
      eSq := epsilon * epsilon;
      nodes := [];
      parents := [];
    }

    /** clear(quad): a single empty root over quad and no parents, a well-formed arena without mass. */
    method Clear(quad: Quad)
      modifies this
      ensures nodes == [NewNode(0, quad)] && parents == []
      ensures tSq == old(tSq) && eSq == old(eSq)
      ensures ArenaOk(nodes, parents) && LeafMass(nodes) == 0.0
    {
      nodes := [];
      parents := [];
      nodes := nodes + [NewNode(0, quad)];
      assert LeafSum(nodes, 1) == LeafSum(nodes, 0) + Weight(nodes[0]);
    }

    /**
     * subdivide(node): records node as a parent, points it at the old end
     * of the arena and appends its four quadrants there, linked by next to
     * one another and the last to the node's own next.
     */
    method Subdivide(node: nat) returns (children: nat)
      requires node < |nodes|
      modifies this
      ensures children == old(|nodes|)
      ensures nodes == SubdivideNodes(old(nodes), node) && parents == old(parents) + [node]
      ensures tSq == old(tSq) && eSq == old(eSq)
    {
      parents := parents + [node];
      children := |nodes|;
      nodes := nodes[node := nodes[node].(children := children)];
      var nexts := [children + 1, children + 2, children + 3, nodes[node].next];
      var quads := SubdivideQuad(nodes[node].quad);
      ghost var base := nodes;
      ghost var added := [NewNode(nexts[0], quads[0]), NewNode(nexts[1], quads[1]),
                          NewNode(nexts[2], quads[2]), NewNode(nexts[3], quads[3])];
      for i := 0 to 4
        invariant parents == old(parents) + [node] && tSq == old(tSq) && eSq == old(eSq)
        invariant nodes == base + added[..i]
      {
        assert added[..i + 1] == added[..i] + [added[i]];
        nodes := nodes + [NewNode(nexts[i], quads[i])];
      }
      assert added[..4] == added;
    }

    /**
     * insert(pos, mass): descend to the leaf whose square takes pos. An
     * empty leaf takes the point and mass; a leaf at the same point adds
     * the mass; otherwise the leaf is split until the old and the new point
     * fall in different quadrants, and each goes to its own fresh leaf.
     */
    method Insert(pos: Vec2, mass: real)
      requires ArenaOk(nodes, parents) && InQuad(nodes[Root].quad, pos)
      modifies this
      ensures tSq == old(tSq) && eSq == old(eSq)
      ensures (nodes, parents) == InsertArena(old(nodes), old(parents), pos, mass)
    {
      var node: nat := Root;
      while !IsLeaf(nodes[node])
        invariant nodes == old(nodes) && parents == old(parents) && tSq == old(tSq) && eSq == old(eSq)
        invariant node < |nodes| && Descend(nodes, parents, node, pos) == Descend(nodes, parents, Root, pos)
        decreases |nodes| - node
      {
        var quadrant := FindQuadrant(nodes[node].quad, pos);
        DescendStep(nodes, parents, node, pos);
        node := nodes[node].children + quadrant;
      }
      DescendKeeps(nodes, parents, Root, pos);
      if IsEmpty(nodes[node]) {
        nodes := nodes[node := nodes[node].(pos := pos, mass := mass)];
        return;
      }
      var p := nodes[node].pos;
      var m := nodes[node].mass;
      if pos == p {
        nodes := nodes[node := nodes[node].(mass := m + mass)];
        return;
      }
      SplitLeaf(node, p, m, pos, mass);
    }

    /**
     * The split loop of insert: subdivide the leaf node until its old
     * point p and the new point pos fall in different quadrants, then put
     * each, with its mass, in its own fresh leaf.
     */
    method SplitLeaf(node: nat, p: Vec2, m: real, pos: Vec2, mass: real)
      requires node < |nodes| && p != pos && InQuad(nodes[node].quad, p) && InQuad(nodes[node].quad, pos)
      modifies this
      ensures tSq == old(tSq) && eSq == old(eSq)
      ensures (nodes, parents) == SplitArena(old(nodes), old(parents), node, p, m, pos, mass)
    {
      var leaf: nat := node;
      ghost var goal := SplitArena(nodes, parents, node, p, m, pos, mass);
      while true
        invariant tSq == old(tSq) && eSq == old(eSq)
        invariant leaf < |nodes| && InQuad(nodes[leaf].quad, p) && InQuad(nodes[leaf].quad, pos)
        invariant SplitArena(nodes, parents, leaf, p, m, pos, mass) == goal
        decreases Levels(nodes[leaf].quad.size, Sep(p, pos))
      {
        ghost var ns, ps := nodes, parents;
        var children := Subdivide(leaf);
        var q1 := FindQuadrant(nodes[leaf].quad, p);
        var q2 := FindQuadrant(nodes[leaf].quad, pos);
        if q1 == q2 {
          SplitArenaDeeper(ns, ps, leaf, p, m, pos, mass);
          leaf := children + q1;
        } else {
          SplitArenaApart(ns, ps, leaf, p, m, pos, mass);
          var n1 := children + q1;
          var n2 := children + q2;
          nodes := nodes[n1 := nodes[n1].(pos := p, mass := m)];
          nodes := nodes[n2 := nodes[n2].(pos := pos, mass := mass)];
          return;
        }
      }
    }


    /**
     * propagate(): walk the parents from the last recorded to the first
     * (children before their parents) and give each the mass of its four
     * children and their mass-weighted mean position. A branch whose
     * children weigh nothing in sum keeps the weighted sum, where the
     * header divides by zero.
     */
    method Propagate()
      requires Shape(nodes, parents)
      modifies this
      ensures parents == old(parents) && tSq == old(tSq) && eSq == old(eSq)
      ensures |nodes| == |old(nodes)| &&
        forall i :: 0 <= i < |nodes| ==> nodes[i] == Propagated(old(nodes), old(parents), i)
      ensures nodes[Root].mass == LeafMass(old(nodes))
      ensures Shape(nodes, parents) && (ArenaOk(old(nodes), old(parents)) ==> ArenaOk(nodes, parents))
    {
      var ns, ps := nodes, parents;
      PropagatedStart(ns, ps);
      var k: nat := |ps|;
      while k > 0
        modifies {}
        invariant PropagatedFrom(old(nodes), ps, ns, k)
      {
        CombineStep(old(nodes), ps, ns, k);
        var node := ps[k - 1];
        ns := ns[node := Combined(ns, node)];
        k := k - 1;
      }
      nodes := ns;
      PropagatedKeeps(old(nodes), old(parents), nodes);
    }
  }
}
