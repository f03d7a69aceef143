/**
  The two accumulation passes that both force layouts share: every pair of nodes pushes each other
  apart, every edge pulls its ends together. What a node ends up with is stated node by node.
*/
module ForceLayout {
  import C = CosineSimilarity

  datatype Point = Point(x: real, y: real) {
    function Plus(p: Point): Point { Point(x + p.x, y + p.y) }
    function Minus(p: Point): Point { Point(x - p.x, y - p.y) }
  }

  const ORIGIN := Point(0.0, 0.0)

  datatype Edge = Edge(source: nat, target: nat)

  /** The push that the earlier node `i` gives the later node `j`, and the pull of an edge on its source. */
  datatype Forces = Forces(push: (nat, nat, Point, Point) -> Point, pull: (Point, Point) -> Point)

  predicate EdgesIn(edges: seq<Edge>, n: nat) { forall e <- edges :: e.source < n && e.target < n }

  // --- directions --------------------------------------------------------------------------

  lemma {:induction false} Times(u: real, v: real, w: real)
    requires u == v
    ensures u * w == v * w
  {}

  lemma {:induction false} Swap(x: real, y: real, z: real)
    ensures x * y * z == x * z * y && x * (y * z) == x * y * z
  {}

  lemma {:induction false} Distribute(k: real, x: real, y: real, z: real)
    requires z == x + y
    ensures k * z == k * x + k * y
  {}

  lemma {:induction false} CancelFactor(x: real, y: real, d: real)
    requires d != 0.0 && x * d == y * d
    ensures x == y
  {
    var z := x - y;
    assert z * d == 0.0;
    if z != 0.0 { C.NonZeroProduct(z, d); }
  }

  lemma {:induction false} PositiveFactor(x: real, d: real)
    requires d > 0.0 && x * d > 0.0
    ensures x > 0.0
  {}

  lemma {:induction false} OnLine(px: real, py: real, dx: real, dy: real, fx: real, fy: real, force: real, d: real)
    requires d != 0.0 && px * d == fx && py * d == fy && fx == force * dx && fy == force * dy
    ensures px * dy == py * dx
  {
    Swap(px, dy, d);
    Times(px * d, fx, dy);
    Swap(py, dx, d);
    Times(py * d, fy, dx);
    Times(fx, force * dx, dy);
    Times(fy, force * dy, dx);
    Swap(force, dx, dy);
    CancelFactor(px * dy, py * dx, d);
  }

  lemma {:induction false} Strength(px: real, py: real, dx: real, dy: real, fx: real, fy: real, force: real, d: real)
    requires d != 0.0 && d * d == dx * dx + dy * dy && px * d == fx && py * d == fy && fx == force * dx && fy == force * dy
    ensures px * dx + py * dy == force * d
  {
    Swap(px, dx, d);
    Times(px * d, fx, dx);
    Swap(py, dy, d);
    Times(py * d, fy, dy);
    Swap(force, dx, dx);
    Swap(force, dy, dy);
    Times(fx, force * dx, dx);
    Times(fy, force * dy, dy);
    var q := px * dx + py * dy;
    assert q * d == px * dx * d + py * dy * d;
    assert q * d == force * (dx * dx) + force * (dy * dy);
    Distribute(force, dx * dx, dy * dy, d * d);
    Swap(force, d, d);
    CancelFactor(q, force * d, d);
  }

  /** How far `p` goes along the direction (`dx`, `dy`), times its length. */
  function Towards(p: Point, dx: real, dy: real): real { p.x * dx + p.y * dy }

  /** A force of strength `force` along (`dx`, `dy`), whose length is `d`. */
  lemma {:induction false} ForceAlong(p: Point, dx: real, dy: real, force: real, d: real)
    requires d != 0.0 && d * d == dx * dx + dy * dy && p.x * d == force * dx && p.y * d == force * dy
    ensures Towards(p, dx, dy) == force * d && p.x * dy == p.y * dx
  {
    OnLine(p.x, p.y, dx, dy, force * dx, force * dy, force, d);
    Strength(p.x, p.y, dx, dy, force * dx, force * dy, force, d);
  }

  lemma {:induction false} Over(x: real, d: real)
    requires d != 0.0
    ensures x / d * d == x
  {}

  lemma {:induction false} FactorIsPositive(x: real, d: real, product: real)
    requires d > 0.0 && product == x * d && product > 0.0
    ensures x > 0.0
  {}

  lemma {:induction false} SquareOver(f: real, d: real, k: real, dd: real)
    requires d > 0.0 && k > 0.0 && dd == d * d && f == dd / k
    ensures f * d > 0.0 && f * d * k == dd * d
  {
    C.PositiveIs(d, d, dd);
    Over(dd, k);
    Swap(f, d, k);
    Times(f * k, dd, d);
    C.PositiveIs(dd, d, dd * d);
    FactorIsPositive(f * d, k, dd * d);
  }

  lemma {:induction false} SumOfSquares(x: real, y: real, xx: real, yy: real)
    requires (x != 0.0 || y != 0.0) && xx == x * x && yy == y * y
    ensures xx + yy > 0.0
  {
    C.SquareIsNonNegative(x);
    C.SquareIsNonNegative(y);
    if x != 0.0 { C.NonZeroIs(x, x, xx); } else { C.NonZeroIs(y, y, yy); }
  }

  lemma {:induction false} PositiveRoot(v: real, sqrt: real -> real) returns (d: real)
    requires C.IsRoot(sqrt) && v > 0.0
    ensures d == sqrt(v) && d > 0.0 && d * d == v
  {
    d := C.RootOf(sqrt, v);
    if d == 0.0 { C.SquareOfZero(d, v); }
  }

  /** The length of a direction that is not zero. */
  lemma {:induction false} LengthOf(dx: real, dy: real, sqrt: real -> real) returns (d: real)
    requires C.IsRoot(sqrt) && (dx != 0.0 || dy != 0.0)
    ensures d == sqrt(dx * dx + dy * dy) && d > 0.0 && d * d == dx * dx + dy * dy
  {
    var xx, yy := dx * dx, dy * dy;
    SumOfSquares(dx, dy, xx, yy);
    d := PositiveRoot(xx + yy, sqrt);
  }

  lemma {:induction false} OppositeDot(p: Point, dx: real, dy: real)
    ensures Towards(ORIGIN.Minus(p), -dx, -dy) == Towards(p, dx, dy)
  {
    assert (0.0 - p.x) * (-dx) == p.x * dx && (0.0 - p.y) * (-dy) == p.y * dy;
  }

  // --- node by node ------------------------------------------------------------------------

  /** What node `s` does to node `m`. */
  function Push(pos: seq<Point>, f: Forces, m: nat, s: nat): Point
    requires m < |pos| && s < |pos|
  {
    if s < m then f.push(s, m, pos[s], pos[m])
    else if s > m then ORIGIN.Minus(f.push(m, s, pos[m], pos[s]))
    else ORIGIN
  }

  /** What the first `t` nodes do to node `m`. */
  function Pushes(pos: seq<Point>, f: Forces, m: nat, t: nat): Point
    requires m < |pos| && t <= |pos|
  {
    if t == 0 then ORIGIN else Pushes(pos, f, m, t - 1).Plus(Push(pos, f, m, t - 1))
  }

  /** What node `m` gets when edge `e` gives `p` to its source and takes it from its target. */
  function Share(p: Point, e: Edge, m: nat): Point {
    (if m == e.source then p else ORIGIN).Minus(if m == e.target then p else ORIGIN)
  }

  /** What one edge does to node `m`; a loop does nothing. */
  function Pull(pos: seq<Point>, f: Forces, e: Edge, m: nat): Point
    requires e.source < |pos| && e.target < |pos|
  {
    Share(f.pull(pos[e.source], pos[e.target]), e, m)
  }

  function Pulls(pos: seq<Point>, f: Forces, edges: seq<Edge>, m: nat): Point
    requires EdgesIn(edges, |pos|)
  {
    if edges == [] then ORIGIN
    else Pulls(pos, f, edges[..|edges|-1], m).Plus(Pull(pos, f, edges[|edges|-1], m))
  }

  function Velocity(pos: seq<Point>, f: Forces, edges: seq<Edge>, m: nat): Point
    requires m < |pos| && EdgesIn(edges, |pos|)
  {
    Pushes(pos, f, m, |pos|).Plus(Pulls(pos, f, edges, m))
  }

  lemma {:induction false} PushesOfTwo(pos: seq<Point>, f: Forces, m: nat, p: Point, q: Point)
    requires |pos| == 2 && m < 2 && p == Push(pos, f, m, 0) && q == Push(pos, f, m, 1)
    ensures Pushes(pos, f, m, 2) == p.Plus(q)
  {
    assert Pushes(pos, f, m, 0) == ORIGIN;
    assert Pushes(pos, f, m, 1) == ORIGIN.Plus(p) == p;
  }

  lemma {:induction false} VelocityOfTwo(pos: seq<Point>, f: Forces, p: Point)
    requires |pos| == 2 && p == f.push(0, 1, pos[0], pos[1])
    ensures Velocity(pos, f, [], 0) == ORIGIN.Minus(p) && Velocity(pos, f, [], 1) == p
  {
    PushesOfTwo(pos, f, 0, ORIGIN, ORIGIN.Minus(p));
    PushesOfTwo(pos, f, 1, p, ORIGIN);
  }

  // --- the passes --------------------------------------------------------------------------

  method Reset(vel: array<Point>)
    modifies vel
    ensures forall m | 0 <= m < vel.Length :: vel[m] == ORIGIN
  {
    for m := 0 to vel.Length
      invariant forall k | 0 <= k < m :: vel[k] == ORIGIN
    {
      vel[m] := ORIGIN;
    }
  }

  /** One row of the pair loop: node `i` against all later ones. */
  method RepelRow(pos: array<Point>, vel: array<Point>, f: Forces, i: nat)
    requires pos != vel && pos.Length == vel.Length && i < pos.Length
    requires forall m | 0 <= m < i :: vel[m] == Pushes(pos[..], f, m, pos.Length)
    requires forall m | i <= m < pos.Length :: vel[m] == Pushes(pos[..], f, m, i)
    modifies vel
    ensures forall m | 0 <= m <= i :: vel[m] == Pushes(pos[..], f, m, pos.Length)
    ensures forall m | i < m < pos.Length :: vel[m] == Pushes(pos[..], f, m, i + 1)
  {
    for j := i + 1 to pos.Length
      invariant forall m | 0 <= m < i :: vel[m] == Pushes(pos[..], f, m, pos.Length)
      invariant vel[i] == Pushes(pos[..], f, i, j)
      invariant forall m | i < m < j :: vel[m] == Pushes(pos[..], f, m, i + 1)
      invariant forall m | j <= m < pos.Length :: vel[m] == Pushes(pos[..], f, m, i)
    {
      var p := f.push(i, j, pos[i], pos[j]);
      vel[i] := vel[i].Minus(p);
      vel[j] := vel[j].Plus(p);
    }
  }

  method Repel(pos: array<Point>, vel: array<Point>, f: Forces)
    requires pos != vel && pos.Length == vel.Length
    requires forall m | 0 <= m < vel.Length :: vel[m] == ORIGIN
    modifies vel
    ensures forall m | 0 <= m < vel.Length :: vel[m] == Pushes(pos[..], f, m, pos.Length)
  {
    for i := 0 to pos.Length
      invariant forall m | 0 <= m < i :: vel[m] == Pushes(pos[..], f, m, pos.Length)
      invariant forall m | i <= m < pos.Length :: vel[m] == Pushes(pos[..], f, m, i)
    {
      RepelRow(pos, vel, f, i);
    }
  }

  method ApplyEdge(vel: array<Point>, e: Edge, p: Point)
    requires e.source < vel.Length && e.target < vel.Length
    modifies vel
    ensures forall m | 0 <= m < vel.Length :: vel[m] == old(vel[m]).Plus(Share(p, e, m))
  {
    vel[e.source] := vel[e.source].Plus(p);
    vel[e.target] := vel[e.target].Minus(p);
  }

  lemma {:induction false} PullsSnoc(pos: seq<Point>, f: Forces, edges: seq<Edge>, t: nat, m: nat)
    requires EdgesIn(edges, |pos|) && t < |edges|
    ensures EdgesIn(edges[..t], |pos|) && EdgesIn(edges[..t+1], |pos|)
    ensures edges[t].source < |pos| && edges[t].target < |pos|
    ensures Pulls(pos, f, edges[..t+1], m) == Pulls(pos, f, edges[..t], m).Plus(Pull(pos, f, edges[t], m))
  {
    assert edges[..t+1][..t] == edges[..t];
    assert edges[t] in edges;
  }

  lemma {:induction false} PlusIsAssociative(a: Point, b: Point, c: Point)
    ensures a.Plus(b).Plus(c) == a.Plus(b.Plus(c))
  {}

  method Attract(pos: array<Point>, vel: array<Point>, f: Forces, edges: seq<Edge>)
    requires pos != vel && pos.Length == vel.Length && EdgesIn(edges, pos.Length)
    requires forall m | 0 <= m < vel.Length :: vel[m] == Pushes(pos[..], f, m, pos.Length)
    modifies vel
    ensures forall m | 0 <= m < vel.Length :: vel[m] == Velocity(pos[..], f, edges, m)
  {
    ghost var here := pos[..];
    for t := 0 to |edges|
      invariant EdgesIn(edges[..t], pos.Length) && pos[..] == here
      invariant forall m | 0 <= m < vel.Length ::
                  vel[m] == Pushes(here, f, m, pos.Length).Plus(Pulls(here, f, edges[..t], m))
    {
      PullsSnoc(here, f, edges, t, 0);
      var e := edges[t];
      ghost var was := vel[..];
      ApplyEdge(vel, e, f.pull(pos[e.source], pos[e.target]));
      forall m | 0 <= m < vel.Length
        ensures vel[m] == Pushes(here, f, m, pos.Length).Plus(Pulls(here, f, edges[..t+1], m))
      {
        PullsSnoc(here, f, edges, t, m);
        assert vel[m] == was[m].Plus(Pull(here, f, e, m));
        PlusIsAssociative(Pushes(here, f, m, pos.Length), Pulls(here, f, edges[..t], m), Pull(here, f, e, m));
      }
    }
    assert edges[..|edges|] == edges;
  }

  // --- nothing is gained -------------------------------------------------------------------

  function Sum(ps: seq<Point>): Point {
    if ps == [] then ORIGIN else Sum(ps[..|ps|-1]).Plus(ps[|ps|-1])
  }

  function Velocities(pos: seq<Point>, f: Forces, edges: seq<Edge>): (vs: seq<Point>)
    requires EdgesIn(edges, |pos|)
    ensures |vs| == |pos|
    ensures forall m {:trigger vs[m]} | 0 <= m < |vs| :: vs[m] == Velocity(pos, f, edges, m)
  {
    seq(|pos|, m requires 0 <= m < |pos| => Velocity(pos, f, edges, m))
  }

  /** What the first `c` nodes get from node `n`, in total. */
  function Given(pos: seq<Point>, f: Forces, n: nat, c: nat): Point
    requires n < |pos| && c <= |pos|
  {
    if c == 0 then ORIGIN else Given(pos, f, n, c - 1).Plus(Push(pos, f, c - 1, n))
  }

  /** Action and reaction: a node gets back what it gives. */
  lemma {:induction false} GivenIsReturned(pos: seq<Point>, f: Forces, n: nat, c: nat)
    requires n < |pos| && c <= n
    ensures Pushes(pos, f, n, c).Plus(Given(pos, f, n, c)) == ORIGIN
  {
    if c > 0 { GivenIsReturned(pos, f, n, c - 1); }
  }

  /** What the first `c` nodes get from the first `t`, in total. */
  function Block(pos: seq<Point>, f: Forces, c: nat, t: nat): Point
    requires c <= |pos| && t <= |pos|
  {
    if c == 0 then ORIGIN else Block(pos, f, c - 1, t).Plus(Pushes(pos, f, c - 1, t))
  }

  lemma {:induction false} BlockGrows(pos: seq<Point>, f: Forces, c: nat, t: nat)
    requires c <= |pos| && t < |pos|
    ensures Block(pos, f, c, t + 1) == Block(pos, f, c, t).Plus(Given(pos, f, t, c))
  {
    if c > 0 { BlockGrows(pos, f, c - 1, t); }
  }

  lemma {:induction false} BlockIsZero(pos: seq<Point>, f: Forces, c: nat)
    requires c <= |pos|
    ensures Block(pos, f, c, c) == ORIGIN
  {
    if c > 0 {
      BlockIsZero(pos, f, c - 1);
      BlockGrows(pos, f, c - 1, c - 1);
      GivenIsReturned(pos, f, c - 1, c - 1);
    }
  }

  /** What one edge gives the first `c` nodes, in total. */
  function Shares(p: Point, e: Edge, c: nat): Point {
    if c == 0 then ORIGIN else Shares(p, e, c - 1).Plus(Share(p, e, c - 1))
  }

  function Hits(p: Point, s: nat, c: nat): Point {
    if c == 0 then ORIGIN else Hits(p, s, c - 1).Plus(if c - 1 == s then p else ORIGIN)
  }

  lemma {:induction false} HitsOnce(p: Point, s: nat, c: nat)
    ensures Hits(p, s, c) == if s < c then p else ORIGIN
  {
    if c > 0 { HitsOnce(p, s, c - 1); }
  }

  lemma {:induction false} MinusDistributes(a: Point, b: Point, c: Point, d: Point)
    ensures a.Minus(b).Plus(c.Minus(d)) == a.Plus(c).Minus(b.Plus(d))
  {}

  lemma {:induction false} SharesAre(p: Point, e: Edge, c: nat)
    ensures Shares(p, e, c) == Hits(p, e.source, c).Minus(Hits(p, e.target, c))
  {
    if c > 0 {
      SharesAre(p, e, c - 1);
      MinusDistributes(Hits(p, e.source, c - 1), Hits(p, e.target, c - 1),
                       if c - 1 == e.source then p else ORIGIN, if c - 1 == e.target then p else ORIGIN);
    }
  }

  lemma {:induction false} SharesCancel(p: Point, e: Edge, c: nat)
    requires e.source < c && e.target < c
    ensures Shares(p, e, c) == ORIGIN
  {
    SharesAre(p, e, c);
    HitsOnce(p, e.source, c);
    HitsOnce(p, e.target, c);
  }

  function PullsTotal(pos: seq<Point>, f: Forces, edges: seq<Edge>, c: nat): Point
    requires EdgesIn(edges, |pos|)
  {
    if c == 0 then ORIGIN else PullsTotal(pos, f, edges, c - 1).Plus(Pulls(pos, f, edges, c - 1))
  }

  lemma {:induction false} PullsTotalGrows(pos: seq<Point>, f: Forces, edges: seq<Edge>, c: nat)
    requires edges != [] && EdgesIn(edges, |pos|)
    ensures var n := |edges| - 1;
      PullsTotal(pos, f, edges, c) == PullsTotal(pos, f, edges[..n], c).Plus(Shares(f.pull(pos[edges[n].source], pos[edges[n].target]), edges[n], c))
  {
    if c > 0 { PullsTotalGrows(pos, f, edges, c - 1); }
  }

  lemma {:induction false} PullsTotalIsZero(pos: seq<Point>, f: Forces, edges: seq<Edge>)
    requires EdgesIn(edges, |pos|)
    ensures PullsTotal(pos, f, edges, |pos|) == ORIGIN
    decreases |edges|
  {
    if edges == [] {
      NoPulls(pos, f, |pos|);
    } else {
      var n := |edges| - 1;
      PullsTotalIsZero(pos, f, edges[..n]);
      PullsTotalGrows(pos, f, edges, |pos|);
      SharesCancel(f.pull(pos[edges[n].source], pos[edges[n].target]), edges[n], |pos|);
    }
  }

  lemma {:induction false} NoPulls(pos: seq<Point>, f: Forces, c: nat)
    ensures PullsTotal(pos, f, [], c) == ORIGIN
  {
    if c > 0 { NoPulls(pos, f, c - 1); }
  }

  lemma {:induction false} Regroup(a: Point, b: Point, c: Point, d: Point)
    ensures a.Plus(b).Plus(c.Plus(d)) == a.Plus(c).Plus(b.Plus(d))
  {}

  lemma {:induction false} SumOfVelocities(pos: seq<Point>, f: Forces, edges: seq<Edge>, vs: seq<Point>, c: nat)
    requires EdgesIn(edges, |pos|) && c <= |pos| && vs == Velocities(pos, f, edges)
    ensures Sum(vs[..c]) == Block(pos, f, c, |pos|).Plus(PullsTotal(pos, f, edges, c))
  {
    if c > 0 {
      SumOfVelocities(pos, f, edges, vs, c - 1);
      SumSnoc(vs, c);
      Regroup(Block(pos, f, c - 1, |pos|), PullsTotal(pos, f, edges, c - 1),
              Pushes(pos, f, c - 1, |pos|), Pulls(pos, f, edges, c - 1));
    }
  }

  lemma {:induction false} SumSnoc(vs: seq<Point>, c: nat)
    requires 0 < c <= |vs|
    ensures Sum(vs[..c]) == Sum(vs[..c-1]).Plus(vs[c-1])
  {
    assert vs[..c][..c-1] == vs[..c-1];
  }

  /** Whatever the forces are, and for loops and repeated edges too, the velocities add up to nothing. */
  lemma {:induction false} MomentumIsZero(pos: seq<Point>, f: Forces, edges: seq<Edge>)
    requires EdgesIn(edges, |pos|)
    ensures Sum(Velocities(pos, f, edges)) == ORIGIN
  {
    var n, vs := |pos|, Velocities(pos, f, edges);
    SumOfVelocities(pos, f, edges, vs, n);
    BlockIsZero(pos, f, n);
    PullsTotalIsZero(pos, f, edges);
    NothingPlusNothing(Sum(vs[..n]), Block(pos, f, n, n), PullsTotal(pos, f, edges, n));
    WholeSum(vs);
  }

  lemma {:induction false} NothingPlusNothing(s: Point, a: Point, b: Point)
    requires s == a.Plus(b) && a == ORIGIN && b == ORIGIN
    ensures s == ORIGIN
  {}

  lemma {:induction false} WholeSum(ps: seq<Point>)
    ensures Sum(ps[..|ps|]) == Sum(ps)
  {
    assert ps[..|ps|] == ps;
  }
}
