/**
  The Microsoft 365 knowledge graph: thirty rounds of pushes and pulls, applied with a damping of 0.1.
*/
module KnowledgeGraphLayout {
  import opened CosineSimilarity
  import opened ForceLayout

  const REPULSION: real := 50.0

  /** The distance, or a substitute where it is zero. */
  function Distance(dx: real, dy: real, sqrt: real -> real, fallback: real): (d: real)
    requires fallback != 0.0
    ensures d != 0.0
  {
    var d := sqrt(dx * dx + dy * dy);
    if d == 0.0 then fallback else d
  }

  function Along(dx: real, dy: real, force: real, dist: real): Point
    requires dist != 0.0
  {
    Point(force * dx / dist, force * dy / dist)
  }

  function PushForce(dist: real): real
    requires dist != 0.0
  {
    NonZeroProduct(dist, dist);
    REPULSION * REPULSION / (dist * dist)
  }

  function PushAlong(dx: real, dy: real, sqrt: real -> real): Point {
    var dist := Distance(dx, dy, sqrt, 0.1);
    Along(dx, dy, PushForce(dist), dist)
  }

  function PullAlong(dx: real, dy: real, sqrt: real -> real): Point {
    var dist := Distance(dx, dy, sqrt, 1.0);
    Along(dx, dy, dist * dist / REPULSION, dist)
  }

  function PushOf(a: Point, b: Point, sqrt: real -> real): Point { PushAlong(b.x - a.x, b.y - a.y, sqrt) }

  function PullOf(a: Point, b: Point, sqrt: real -> real): Point { PullAlong(b.x - a.x, b.y - a.y, sqrt) }

  function GraphForces(sqrt: real -> real): Forces {
    Forces((i: nat, j: nat, a: Point, b: Point) => PushOf(a, b, sqrt), (a: Point, b: Point) => PullOf(a, b, sqrt))
  }

  function MovePoint(p: Point, v: Point): Point { Point(p.x + v.x * 0.1, p.y + v.y * 0.1) }

  /** One round: every node moves by a tenth of its velocity. */
  function MoveAll(pos: seq<Point>, vs: seq<Point>): (next: seq<Point>)
    requires |vs| == |pos|
    ensures |next| == |pos| && forall m {:trigger next[m]} | 0 <= m < |pos| :: next[m] == MovePoint(pos[m], vs[m])
  {
    seq(|pos|, m requires 0 <= m < |pos| => MovePoint(pos[m], vs[m]))
  }

  function Moved(pos: seq<Point>, f: Forces, edges: seq<Edge>): (next: seq<Point>)
    requires EdgesIn(edges, |pos|)
    ensures |next| == |pos|
  {
    MoveAll(pos, Velocities(pos, f, edges))
  }

  function Rounds(pos: seq<Point>, f: Forces, edges: seq<Edge>, n: nat): (next: seq<Point>)
    requires EdgesIn(edges, |pos|)
    ensures |next| == |pos|
  {
    if n == 0 then pos else Moved(Rounds(pos, f, edges, n - 1), f, edges)
  }

  method SimulateLayout(pos: array<Point>, vel: array<Point>, edges: seq<Edge>, iterations: nat, sqrt: real -> real)
    requires pos != vel && pos.Length == vel.Length && EdgesIn(edges, pos.Length)
    modifies pos, vel
    ensures pos[..] == Rounds(old(pos[..]), GraphForces(sqrt), edges, iterations)
  {
    var f := GraphForces(sqrt);
    for iter := 0 to iterations
      invariant pos[..] == Rounds(old(pos[..]), f, edges, iter)
    {
      OneRound(pos, vel, f, edges);
    }
  }

  method Integrate(pos: array<Point>, vel: array<Point>)
    requires pos != vel && pos.Length == vel.Length
    modifies pos
    ensures pos[..] == MoveAll(old(pos[..]), vel[..])
  {
    for m := 0 to pos.Length
      invariant forall k | 0 <= k < m :: pos[k] == MovePoint(old(pos[k]), vel[k])
      invariant forall k | m <= k < pos.Length :: pos[k] == old(pos[k])
    {
      pos[m] := MovePoint(pos[m], vel[m]);
    }
  }

  method OneRound(pos: array<Point>, vel: array<Point>, f: Forces, edges: seq<Edge>)
    requires pos != vel && pos.Length == vel.Length && EdgesIn(edges, pos.Length)
    modifies pos, vel
    ensures pos[..] == Moved(old(pos[..]), f, edges)
  {
    Reset(vel);
    Repel(pos, vel, f);
    Attract(pos, vel, f, edges);
    assert vel[..] == Velocities(pos[..], f, edges);
    Integrate(pos, vel);
  }

  lemma {:induction false} MoveAdds(total: Point, speed: Point, p: Point, v: Point)
    ensures MovePoint(total, speed).Plus(MovePoint(p, v)) == MovePoint(total.Plus(p), speed.Plus(v))
  {}

  lemma {:induction false} SumOfMoved(pos: seq<Point>, vs: seq<Point>, next: seq<Point>, c: nat)
    requires |vs| == |pos| && c <= |pos| && next == MoveAll(pos, vs)
    ensures Sum(next[..c]) == MovePoint(Sum(pos[..c]), Sum(vs[..c]))
  {
    if c == 0 {
      assert next[..0] == [] && pos[..0] == [] && vs[..0] == [];
      assert MovePoint(ORIGIN, ORIGIN) == ORIGIN;
    } else {
      var i := c - 1;
      SumOfMoved(pos, vs, next, i);
      calc {
        Sum(next[..c]);
        { SumSnoc(next, c); }
        Sum(next[..i]).Plus(next[i]);
        MovePoint(Sum(pos[..i]), Sum(vs[..i])).Plus(MovePoint(pos[i], vs[i]));
        { MoveAdds(Sum(pos[..i]), Sum(vs[..i]), pos[i], vs[i]); }
        MovePoint(Sum(pos[..i]).Plus(pos[i]), Sum(vs[..i]).Plus(vs[i]));
        { SumSnoc(pos, c); SumSnoc(vs, c); }
        MovePoint(Sum(pos[..c]), Sum(vs[..c]));
      }
    }
  }

  lemma {:induction false} RoundKeepsSum(pos: seq<Point>, f: Forces, edges: seq<Edge>)
    requires EdgesIn(edges, |pos|)
    ensures Sum(Moved(pos, f, edges)) == Sum(pos)
  {
    var vs := Velocities(pos, f, edges);
    SumOfMoved(pos, vs, MoveAll(pos, vs), |pos|);
    MomentumIsZero(pos, f, edges);
    WholeSum(pos);
    WholeSum(vs);
    WholeSum(MoveAll(pos, vs));
  }

  /** However many rounds are run, the centre of gravity of the graph stays where it was. */
  lemma {:induction false} CentroidStays(pos: seq<Point>, f: Forces, edges: seq<Edge>, n: nat)
    requires EdgesIn(edges, |pos|)
    ensures Sum(Rounds(pos, f, edges, n)) == Sum(pos)
  {
    if n > 0 {
      CentroidStays(pos, f, edges, n - 1);
      RoundKeepsSum(Rounds(pos, f, edges, n - 1), f, edges);
    }
  }

  // --- the pairs may be taken in any order -------------------------------------------------

  lemma {:induction false} OppositeAlong(dx: real, dy: real, force: real, dist: real)
    requires dist != 0.0
    ensures Along(-dx, -dy, force, dist) == ORIGIN.Minus(Along(dx, dy, force, dist))
  {
    Opposite(force, dx, dist);
    Opposite(force, dy, dist);
  }

  lemma {:induction false} Opposite(force: real, d: real, dist: real)
    requires dist != 0.0
    ensures force * (-d) / dist == 0.0 - force * d / dist
  {
    assert force * (-d) == -(force * d);
    QuotientIs(-(force * d), dist, -(force * d / dist)) by {
      assert force * d / dist * dist == force * d;
    }
  }

  lemma {:induction false} OppositePush(dx: real, dy: real, sqrt: real -> real)
    ensures PushAlong(-dx, -dy, sqrt) == ORIGIN.Minus(PushAlong(dx, dy, sqrt))
  {
    assert (-dx) * (-dx) == dx * dx && (-dy) * (-dy) == dy * dy;
    var dist := Distance(dx, dy, sqrt, 0.1);
    OppositeAlong(dx, dy, PushForce(dist), dist);
  }

  /** Two nodes push each other equally hard, in opposite directions. */
  lemma {:induction false} PushIsMutual(a: Point, b: Point, sqrt: real -> real)
    ensures PushOf(b, a, sqrt) == ORIGIN.Minus(PushOf(a, b, sqrt))
  {
    OppositePush(b.x - a.x, b.y - a.y, sqrt);
    assert a.x - b.x == -(b.x - a.x) && a.y - b.y == -(b.y - a.y);
  }

  // --- which way the forces act ------------------------------------------------------------

  lemma {:induction false} AlongIs(dx: real, dy: real, force: real, d: real)
    requires d != 0.0 && d * d == dx * dx + dy * dy
    ensures var p := Along(dx, dy, force, d);
      Towards(p, dx, dy) == force * d && p.x * dy == p.y * dx
  {
    Over(force * dx, d);
    Over(force * dy, d);
    ForceAlong(Along(dx, dy, force, d), dx, dy, force, d);
  }

  /**
    Two nodes that do not coincide push each other apart, along the line between them and with the
    inverse square of their distance.
  */
  lemma {:induction false} PushParts(a: Point, b: Point, dx: real, dy: real, sqrt: real -> real) returns (d: real)
    requires IsRoot(sqrt) && dx == b.x - a.x && dy == b.y - a.y && a != b
    ensures d > 0.0 && d * d == dx * dx + dy * dy
    ensures var p := PushOf(a, b, sqrt);
      Towards(p, dx, dy) > 0.0 && Towards(p, dx, dy) * d == 2500.0 && p.x * dy == p.y * dx
  {
    d := LengthOf(dx, dy, sqrt);
    var f := PushForce(d);
    AlongIs(dx, dy, f, d);
    NonZeroIs(d, d, d * d);
    InverseSquare(f, d, 2500.0, d * d);
    assert PushOf(a, b, sqrt) == PushAlong(dx, dy, sqrt) == Along(dx, dy, f, d);
    Times(Towards(PushOf(a, b, sqrt), dx, dy), f * d, d);
  }

  lemma {:induction false} InverseSquare(f: real, d: real, k: real, dd: real)
    requires d > 0.0 && k > 0.0 && dd == d * d && dd != 0.0 && f == k / dd
    ensures f * d > 0.0 && f * d * d == k
  {
    Over(k, dd);
    Swap(f, d, d);
    Times(dd, d * d, f);
    FactorIsPositive(f * d, d, k);
  }

  /** An edge draws its source to its target, with the square of their distance over fifty. */
  lemma {:induction false} PullDraws(a: Point, b: Point, dx: real, dy: real, sqrt: real -> real) returns (d: real)
    requires IsRoot(sqrt) && dx == b.x - a.x && dy == b.y - a.y && a != b
    ensures d > 0.0 && d * d == dx * dx + dy * dy
    ensures var p := PullOf(a, b, sqrt);
      Towards(p, dx, dy) > 0.0 && Towards(p, dx, dy) * 50.0 == d * d * d && p.x * dy == p.y * dx
  {
    var pull;
    d, pull := PullOn(dx, dy, sqrt);
    assert PullOf(a, b, sqrt) == pull;
  }

  lemma {:induction false} PullOn(dx: real, dy: real, sqrt: real -> real) returns (d: real, p: Point)
    requires IsRoot(sqrt) && (dx != 0.0 || dy != 0.0)
    ensures d > 0.0 && d * d == dx * dx + dy * dy && p == PullAlong(dx, dy, sqrt)
    ensures Towards(p, dx, dy) > 0.0 && Towards(p, dx, dy) * 50.0 == d * d * d && p.x * dy == p.y * dx
  {
    d := LengthOf(dx, dy, sqrt);
    var dd := d * d;
    p := Along(dx, dy, dd / 50.0, d);
    PullIs(dx, dy, d, dd / 50.0, dd);
  }

  lemma {:induction false} PullIs(dx: real, dy: real, d: real, f: real, dd: real)
    requires d > 0.0 && dd == d * d && d * d == dx * dx + dy * dy && f == dd / 50.0
    ensures var p := Along(dx, dy, f, d);
      Towards(p, dx, dy) > 0.0 && Towards(p, dx, dy) * 50.0 == dd * d && p.x * dy == p.y * dx
  {
    AlongIs(dx, dy, f, d);
    SquareOver(f, d, 50.0, dd);
    Times(Towards(Along(dx, dy, f, d), dx, dy), f * d, 50.0);
  }

  /** Every node is pushed away from every other one. */
  lemma {:induction false} NodesPart(pos: seq<Point>, m: nat, n: nat, sqrt: real -> real)
    requires IsRoot(sqrt) && m < |pos| && n < |pos| && pos[m] != pos[n]
    ensures Towards(Push(pos, GraphForces(sqrt), m, n), pos[m].x - pos[n].x, pos[m].y - pos[n].y) > 0.0
  {
    var dx, dy := pos[m].x - pos[n].x, pos[m].y - pos[n].y;
    if n < m {
      var d := PushParts(pos[n], pos[m], dx, dy, sqrt);
    } else {
      var d := PushParts(pos[m], pos[n], -dx, -dy, sqrt);
      OppositeDot(PushOf(pos[m], pos[n], sqrt), -dx, -dy);
    }
  }

  /** Left alone, two nodes move apart: a round adds to their distance along the line between them. */
  lemma {:induction false} TwoNodesPart(a: Point, b: Point, dx: real, dy: real, sqrt: real -> real) returns (next: seq<Point>)
    requires IsRoot(sqrt) && a != b && dx == b.x - a.x && dy == b.y - a.y
    ensures next == Moved([a, b], GraphForces(sqrt), [])
    ensures Towards(next[1], dx, dy) - Towards(next[0], dx, dy) > Towards(b, dx, dy) - Towards(a, dx, dy)
  {
    var pos, f := [a, b], GraphForces(sqrt);
    var p := PushOf(a, b, sqrt);
    var d := PushParts(a, b, dx, dy, sqrt);
    next := Moved(pos, f, []);
    VelocityOfTwo(pos, f, p);
    assert next[0] == MovePoint(a, ORIGIN.Minus(p)) && next[1] == MovePoint(b, p);
    MovesAlong(b, p, dx, dy);
    MovesAlong(a, ORIGIN.Minus(p), dx, dy);
    assert Towards(ORIGIN.Minus(p), dx, dy) == -Towards(p, dx, dy);
  }

  lemma {:induction false} MovesAlong(p: Point, v: Point, dx: real, dy: real)
    ensures Towards(MovePoint(p, v), dx, dy) == Towards(p, dx, dy) + 0.1 * Towards(v, dx, dy)
  {
    assert (p.x + v.x * 0.1) * dx == p.x * dx + 0.1 * (v.x * dx);
    assert (p.y + v.y * 0.1) * dy == p.y * dy + 0.1 * (v.y * dy);
  }

  /** Every edge draws its two ends together. */
  lemma {:induction false} EndsMeet(pos: seq<Point>, e: Edge, sqrt: real -> real)
    requires IsRoot(sqrt) && e.source < |pos| && e.target < |pos| && pos[e.source] != pos[e.target]
    ensures var dx, dy := pos[e.target].x - pos[e.source].x, pos[e.target].y - pos[e.source].y;
      Towards(Pull(pos, GraphForces(sqrt), e, e.source), dx, dy) > 0.0
      && Towards(Pull(pos, GraphForces(sqrt), e, e.target), -dx, -dy) > 0.0
  {
    var dx, dy := pos[e.target].x - pos[e.source].x, pos[e.target].y - pos[e.source].y;
    var p := PullOf(pos[e.source], pos[e.target], sqrt);
    var d := PullDraws(pos[e.source], pos[e.target], dx, dy, sqrt);
    OppositeDot(p, dx, dy);
    assert Pull(pos, GraphForces(sqrt), e, e.source) == p && Pull(pos, GraphForces(sqrt), e, e.target) == ORIGIN.Minus(p);
  }

  function PlainPushes(pos: seq<Point>, m: nat, t: nat, sqrt: real -> real): Point
    requires m < |pos| && t <= |pos|
  {
    if t == 0 then ORIGIN else PlainPushes(pos, m, t - 1, sqrt).Plus(PushOf(pos[t-1], pos[m], sqrt))
  }

  /** The pair loop visits each pair once; every node still gets the push of every other one. */
  lemma {:induction false} EveryNodePushes(pos: seq<Point>, m: nat, t: nat, sqrt: real -> real)
    requires m < |pos| && t <= |pos|
    ensures Pushes(pos, GraphForces(sqrt), m, t) == PlainPushes(pos, m, t, sqrt)
  {
    if t > 0 {
      EveryNodePushes(pos, m, t - 1, sqrt);
      PushIsMutual(pos[m], pos[t-1], sqrt);
    }
  }
}

/**
  The local knowledge graph: nodes start on a circle, seventy rounds move them, each step is clamped
  to 40 per coordinate and followed by a gentle pull to the centre.
*/
module LocalGraphLayout {
  import opened CosineSimilarity
  import opened ForceLayout

  // the drawing space is 1000 by 640
  const CENTRE := Point(500.0, 320.0)
  const SEED_RADIUS: real := 640.0 / 2.6
  const EDGE_LENGTH: real := 90.0
  const COOLING: real := 0.02 * 0.85
  const LAYOUT_ITERATIONS: nat := 70

  lemma {:induction false} RootOfPositive(sqrt: real -> real, v: real)
    requires IsRoot(sqrt) && v > 0.0
    ensures sqrt(v) != 0.0
  {
    var r := RootOf(sqrt, v);
    SquareOfNonZero(r, v);
  }

  lemma {:induction false} SquareOfNonZero(r: real, v: real)
    requires r * r == v && v > 0.0
    ensures r != 0.0
  {}

  function Along(dx: real, dy: real, dist: real, force: real): Point
    requires dist != 0.0
  {
    Point(dx / dist * force, dy / dist * force)
  }

  /** Nodes that (almost) coincide are nudged apart, in a direction that depends on their positions in the list. */
  function PushOf(i: nat, j: nat, a: Point, b: Point, sqrt: real -> real): Point
    requires IsRoot(sqrt)
  {
    PushAlong(i, j, b.x - a.x, b.y - a.y, sqrt)
  }

  function PushAlong(i: nat, j: nat, dx: real, dy: real, sqrt: real -> real): Point
    requires IsRoot(sqrt)
  {
    var dist := sqrt(dx * dx + dy * dy);
    if dist < 0.01 then
      var nx, ny := (i - j) as real * 0.5 + 0.1, (j - i) as real * 0.5 + 0.1;
      NudgeIsApart(i, j, sqrt);
      var far := sqrt(nx * nx + ny * ny);
      Along(nx, ny, far, EDGE_LENGTH * EDGE_LENGTH / far)
    else Along(dx, dy, dist, EDGE_LENGTH * EDGE_LENGTH / dist)
  }

  /** The nudge has a length, so nothing is divided by zero. */
  lemma {:induction false} NudgeIsApart(i: nat, j: nat, sqrt: real -> real)
    requires IsRoot(sqrt)
    ensures var nx, ny := (i - j) as real * 0.5 + 0.1, (j - i) as real * 0.5 + 0.1;
      sqrt(nx * nx + ny * ny) != 0.0
  {
    var nx, ny := (i - j) as real * 0.5 + 0.1, (j - i) as real * 0.5 + 0.1;
    assert nx + ny == 0.2;
    SquareIsNonNegative(nx);
    SquareIsNonNegative(ny);
    if nx > 0.0 { Positive(nx, nx); } else { Positive(ny, ny); }
    RootOfPositive(sqrt, nx * nx + ny * ny);
  }

  function PullOf(a: Point, b: Point, sqrt: real -> real): Point { PullAlong(b.x - a.x, b.y - a.y, sqrt) }

  function PullAlong(dx: real, dy: real, sqrt: real -> real): Point {
    var d := sqrt(dx * dx + dy * dy);
    var dist := if d == 0.0 then 1.0 else d;
    Along(dx, dy, dist, dist * dist / EDGE_LENGTH)
  }

  function GraphForces(sqrt: real -> real): Forces
    requires IsRoot(sqrt)
  {
    Forces((i: nat, j: nat, a: Point, b: Point) => PushOf(i, j, a, b, sqrt), (a: Point, b: Point) => PullOf(a, b, sqrt))
  }

  // --- which way the forces act ------------------------------------------------------------

  lemma {:induction false} AlongIs(dx: real, dy: real, d: real, force: real)
    requires d != 0.0 && d * d == dx * dx + dy * dy
    ensures var p := Along(dx, dy, d, force);
      Towards(p, dx, dy) == force * d && p.x * dy == p.y * dx
  {
    PartIs(dx, d, force);
    PartIs(dy, d, force);
    ForceAlong(Along(dx, dy, d, force), dx, dy, force, d);
  }

  lemma {:induction false} PartIs(x: real, d: real, force: real)
    requires d != 0.0
    ensures x / d * force * d == force * x
  {
    var q := x / d;
    assert q * d == x;
    Swap(q, force, d);
    Times(q * d, x, force);
  }

  lemma {:induction false} PushIs(dx: real, dy: real, d: real)
    requires d != 0.0 && d * d == dx * dx + dy * dy
    ensures var p := Along(dx, dy, d, 8100.0 / d);
      Towards(p, dx, dy) == 8100.0 && p.x * dy == p.y * dx
  {
    AlongIs(dx, dy, d, 8100.0 / d);
    Over(8100.0, d);
  }

  /** Two nodes that are not too close push each other apart, along the line between them and with the inverse of their distance. */
  lemma {:induction false} PushParts(i: nat, j: nat, a: Point, b: Point, dx: real, dy: real, sqrt: real -> real) returns (d: real)
    requires IsRoot(sqrt) && dx == b.x - a.x && dy == b.y - a.y && a != b
    ensures d > 0.0 && d * d == dx * dx + dy * dy
    ensures var p := PushOf(i, j, a, b, sqrt);
      d >= 0.01 ==> Towards(p, dx, dy) == 8100.0 && p.x * dy == p.y * dx
  {
    d := LengthOf(dx, dy, sqrt);
    assert PushOf(i, j, a, b, sqrt) == PushAlong(i, j, dx, dy, sqrt);
    PushIs(dx, dy, d);
  }

  /** Nodes closer than that part in the direction of their nudge. */
  lemma {:induction false} NudgeParts(i: nat, j: nat, a: Point, b: Point, dx: real, dy: real, sqrt: real -> real)
    requires IsRoot(sqrt) && dx == b.x - a.x && dy == b.y - a.y && sqrt(dx * dx + dy * dy) < 0.01
    ensures Towards(PushOf(i, j, a, b, sqrt), (i - j) as real * 0.5 + 0.1, (j - i) as real * 0.5 + 0.1) == 8100.0
  {
    var nx, ny := (i - j) as real * 0.5 + 0.1, (j - i) as real * 0.5 + 0.1;
    assert nx + ny == 0.2;
    NudgeIsApart(i, j, sqrt);
    var far := LengthOf(nx, ny, sqrt);
    PushIs(nx, ny, far);
    assert PushOf(i, j, a, b, sqrt) == PushAlong(i, j, dx, dy, sqrt);
  }

  /** An edge draws its source to its target, with the square of their distance over ninety. */
  lemma {:induction false} PullDraws(a: Point, b: Point, dx: real, dy: real, sqrt: real -> real) returns (d: real)
    requires IsRoot(sqrt) && dx == b.x - a.x && dy == b.y - a.y && a != b
    ensures d > 0.0 && d * d == dx * dx + dy * dy
    ensures var p := PullOf(a, b, sqrt);
      Towards(p, dx, dy) > 0.0 && Towards(p, dx, dy) * 90.0 == d * d * d && p.x * dy == p.y * dx
  {
    var pull;
    d, pull := PullOn(dx, dy, sqrt);
    assert PullOf(a, b, sqrt) == pull;
  }

  lemma {:induction false} PullOn(dx: real, dy: real, sqrt: real -> real) returns (d: real, p: Point)
    requires IsRoot(sqrt) && (dx != 0.0 || dy != 0.0)
    ensures d > 0.0 && d * d == dx * dx + dy * dy && p == PullAlong(dx, dy, sqrt)
    ensures Towards(p, dx, dy) > 0.0 && Towards(p, dx, dy) * 90.0 == d * d * d && p.x * dy == p.y * dx
  {
    d := LengthOf(dx, dy, sqrt);
    var dd := d * d;
    p := Along(dx, dy, d, dd / 90.0);
    PullIs(dx, dy, d, dd / 90.0, dd);
  }

  lemma {:induction false} PullIs(dx: real, dy: real, d: real, f: real, dd: real)
    requires d > 0.0 && dd == d * d && d * d == dx * dx + dy * dy && f == dd / 90.0
    ensures var p := Along(dx, dy, d, f);
      Towards(p, dx, dy) > 0.0 && Towards(p, dx, dy) * 90.0 == dd * d && p.x * dy == p.y * dx
  {
    AlongIs(dx, dy, d, f);
    SquareOver(f, d, 90.0, dd);
    Times(Towards(Along(dx, dy, d, f), dx, dy), f * d, 90.0);
  }

  function Clamp(v: real): real { if v > 40.0 then 40.0 else if v < -40.0 then -40.0 else v }

  function Drift(x: real, v: real, centre: real): real {
    var x1 := x + Clamp(v * COOLING);
    x1 + (centre - x1) * 0.003
  }

  function DriftPoint(p: Point, v: Point): Point { Point(Drift(p.x, v.x, CENTRE.x), Drift(p.y, v.y, CENTRE.y)) }

  function MoveAll(pos: seq<Point>, vs: seq<Point>): (next: seq<Point>)
    requires |vs| == |pos|
    ensures |next| == |pos| && forall m {:trigger next[m]} | 0 <= m < |pos| :: next[m] == DriftPoint(pos[m], vs[m])
  {
    seq(|pos|, m requires 0 <= m < |pos| => DriftPoint(pos[m], vs[m]))
  }

  function Moved(pos: seq<Point>, f: Forces, edges: seq<Edge>): (next: seq<Point>)
    requires EdgesIn(edges, |pos|)
    ensures |next| == |pos|
  {
    MoveAll(pos, Velocities(pos, f, edges))
  }

  function Rounds(pos: seq<Point>, f: Forces, edges: seq<Edge>, n: nat): (next: seq<Point>)
    requires EdgesIn(edges, |pos|)
    ensures |next| == |pos|
  {
    if n == 0 then pos else Moved(Rounds(pos, f, edges, n - 1), f, edges)
  }

  /** The host's sine and cosine, and the angle of the `i`-th of `n` nodes. */
  datatype Circle = Circle(cos: real -> real, sin: real -> real, angle: (nat, nat) -> real)

  ghost predicate OnCircle(c: Circle) {
    forall t :: -1.0 <= c.cos(t) <= 1.0 && -1.0 <= c.sin(t) <= 1.0
  }

  function Seed(c: Circle, i: nat, n: nat): Point {
    Point(CENTRE.x + SEED_RADIUS * c.cos(c.angle(i, n)), CENTRE.y + SEED_RADIUS * c.sin(c.angle(i, n)))
  }

  function Seeds(c: Circle, n: nat): (s: seq<Point>)
    ensures |s| == n && forall i {:trigger s[i]} | 0 <= i < n :: s[i] == Seed(c, i, n)
  {
    seq(n, i requires 0 <= i < n => Seed(c, i, n))
  }

  /** Edges to nodes that are not shown are dropped. */
  function KnownEdges(edges: seq<Edge>, n: nat): (known: seq<Edge>)
    ensures EdgesIn(known, n)
  {
    if edges == [] then []
    else
      var last := edges[|edges|-1];
      KnownEdges(edges[..|edges|-1], n) + if last.source < n && last.target < n then [last] else []
  }

  /** How often an edge is listed. */
  function Count(edges: seq<Edge>, e: Edge): nat {
    if edges == [] then 0 else (if edges[0] == e then 1 else 0) + Count(edges[1..], e)
  }

  lemma {:induction false} CountNext(edges: seq<Edge>, last: Edge, e: Edge)
    ensures Count(edges + [last], e) == Count(edges, e) + if last == e then 1 else 0
  {
    if edges == [] {
      assert [] + [last] == [last] && Count([last][1..], e) == 0;
    } else {
      CountNext(edges[1..], last, e);
      assert (edges + [last])[1..] == edges[1..] + [last];
    }
  }

  /** Every edge between shown nodes is kept, as often as it is listed, loops included; no other is. */
  lemma {:induction false} KnownEdgesAre(edges: seq<Edge>, n: nat, e: Edge)
    ensures Count(KnownEdges(edges, n), e) == if e.source < n && e.target < n then Count(edges, e) else 0
  {
    if edges != [] {
      var init, last := edges[..|edges|-1], edges[|edges|-1];
      KnownEdgesAre(init, n, e);
      assert edges == init + [last];
      CountNext(init, last, e);
      if last.source < n && last.target < n {
        CountNext(KnownEdges(init, n), last, e);
      } else {
        assert KnownEdges(init, n) + [] == KnownEdges(init, n);
      }
    }
  }

  lemma {:induction false} Scale(r: real, c: real, s: real)
    ensures (r * c) * (r * c) + (r * s) * (r * s) == r * r * (c * c + s * s)
  {}

  /** The nodes start on a circle around the centre. */
  lemma {:induction false} SeedsLieOnCircle(c: Circle, i: nat, n: nat)
    requires forall t :: c.cos(t) * c.cos(t) + c.sin(t) * c.sin(t) == 1.0
    ensures var p := Seed(c, i, n).Minus(CENTRE); p.x * p.x + p.y * p.y == SEED_RADIUS * SEED_RADIUS
  {
    var t := c.angle(i, n);
    var x, y := SEED_RADIUS * c.cos(t), SEED_RADIUS * c.sin(t);
    var p := Seed(c, i, n).Minus(CENTRE);
    assert p.x == x && p.y == y;
    Scale(SEED_RADIUS, c.cos(t), c.sin(t));
    assert c.cos(t) * c.cos(t) + c.sin(t) * c.sin(t) == 1.0;
  }

  method PlaceOnCircle(c: Circle, n: nat) returns (pos: array<Point>)
    ensures fresh(pos) && pos[..] == Seeds(c, n)
  {
    pos := new Point[n](_ => ORIGIN);
    for i := 0 to n
      invariant forall k | 0 <= k < i :: pos[k] == Seed(c, k, n)
    {
      pos[i] := Seed(c, i, n);
    }
  }

  method ComputeLayout(n: nat, edges: seq<Edge>, c: Circle, sqrt: real -> real) returns (pos: array<Point>)
    requires IsRoot(sqrt)
    ensures fresh(pos)
    ensures pos[..] == Rounds(Seeds(c, n), GraphForces(sqrt), KnownEdges(edges, n), LAYOUT_ITERATIONS)
  {
    pos := PlaceOnCircle(c, n);
    var vel := new Point[n](_ => ORIGIN);
    var layoutEdges := KnownEdges(edges, n);
    var f := GraphForces(sqrt);
    for iter := 0 to LAYOUT_ITERATIONS
      invariant pos[..] == Rounds(Seeds(c, n), f, layoutEdges, iter)
    {
      OneRound(pos, vel, f, layoutEdges);
    }
  }

  method Integrate(pos: array<Point>, vel: array<Point>)
    requires pos != vel && pos.Length == vel.Length
    modifies pos
    ensures pos[..] == MoveAll(old(pos[..]), vel[..])
  {
    for m := 0 to pos.Length
      invariant forall k | 0 <= k < m :: pos[k] == DriftPoint(old(pos[k]), vel[k])
      invariant forall k | m <= k < pos.Length :: pos[k] == old(pos[k])
    {
      pos[m] := DriftPoint(pos[m], vel[m]);
    }
  }

  method OneRound(pos: array<Point>, vel: array<Point>, f: Forces, edges: seq<Edge>)
    requires pos != vel && pos.Length == vel.Length && EdgesIn(edges, pos.Length)
    modifies pos, vel
    ensures pos[..] == Moved(old(pos[..]), f, edges)
  {
    Reset(vel);
    Repel(pos, vel, f);
    Attract(pos, vel, f, edges);
    assert vel[..] == Velocities(pos[..], f, edges);
    Integrate(pos, vel);
  }

  // --- how far a node can get --------------------------------------------------------------

  /** The reach after `n` rounds: each adds a clamped step and takes 0.3% back. */
  function Reach(n: nat): real { if n == 0 then SEED_RADIUS else (Reach(n - 1) + 40.0) * 0.997 }

  predicate Within(x: real, centre: real, r: real) { centre - r <= x <= centre + r }

  lemma {:induction false} DriftStaysNear(x: real, v: real, centre: real, r: real)
    requires Within(x, centre, r)
    ensures Within(Drift(x, v, centre), centre, (r + 40.0) * 0.997)
  {}

  lemma {:induction false} SeedIsNear(c: Circle, i: nat, n: nat)
    requires OnCircle(c)
    ensures Within(Seed(c, i, n).x, CENTRE.x, SEED_RADIUS) && Within(Seed(c, i, n).y, CENTRE.y, SEED_RADIUS)
  {
    var t := c.angle(i, n);
    assert -1.0 <= c.cos(t) <= 1.0 && -1.0 <= c.sin(t) <= 1.0;
  }

  /**
    A coordinate at rest comes closer to the centre by 0.3%; a velocity moves it its own way, the
    faster the further, by 40 at most before the pull.
  */
  lemma {:induction false} DriftFollows(x: real, v: real, w: real, centre: real)
    ensures Drift(x, 0.0, centre) - centre == 0.997 * (x - centre)
    ensures v <= w ==> Drift(x, v, centre) <= Drift(x, w, centre)
    ensures v > 0.0 ==> Drift(x, 0.0, centre) < Drift(x, v, centre) <= Drift(x, 0.0, centre) + 0.997 * 40.0
    ensures v < 0.0 ==> Drift(x, 0.0, centre) > Drift(x, v, centre) >= Drift(x, 0.0, centre) - 0.997 * 40.0
  {}

  /** Whatever the forces and edges: after `t` rounds no coordinate is further from the centre than the reach. */
  lemma {:induction false} NodesStayNear(c: Circle, n: nat, f: Forces, edges: seq<Edge>, t: nat, m: nat)
    requires OnCircle(c) && EdgesIn(edges, n) && m < n
    ensures var p := Rounds(Seeds(c, n), f, edges, t)[m];
      Within(p.x, CENTRE.x, Reach(t)) && Within(p.y, CENTRE.y, Reach(t))
  {
    if t == 0 {
      SeedIsNear(c, m, n);
    } else {
      var pos := Rounds(Seeds(c, n), f, edges, t - 1);
      NodesStayNear(c, n, f, edges, t - 1, m);
      var v := Velocity(pos, f, edges, m);
      assert Moved(pos, f, edges)[m] == DriftPoint(pos[m], v);
      DriftStaysNear(pos[m].x, v.x, CENTRE.x, Reach(t - 1));
      DriftStaysNear(pos[m].y, v.y, CENTRE.y, Reach(t - 1));
    }
  }

  /** The reach is the seed radius plus 40 per round at most, and never more than 13294. */
  lemma {:induction false} ReachIsBounded(t: nat)
    ensures 0.0 <= Reach(t) <= SEED_RADIUS + 40.0 * t as real
    ensures Reach(t) <= 13294.0
  {
    if t > 0 { ReachIsBounded(t - 1); }
  }
}
