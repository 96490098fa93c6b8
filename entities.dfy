/** The entity record of game.js, the game's constants, the distance tests the
    simulation makes, and the per-kind partition `update` takes at the start of
    every frame. Coordinates are exact reals; the source's `Math.sqrt` is never
    taken: a comparison `distance(a, b) < r` is stated on the squared distance. */
module Entities {

  import opened Kinds

  /** Side of an entity's square, and the contact distance for conversions. */
  const EntitySize: real := 28.0
  /** Width and height of the arena. */
  const ArenaSize: real := 800.0
  /** Largest coordinate an entity may have after the wall bounce. */
  const MaxCoord: real := ArenaSize - EntitySize
  const AvoidanceRadius: real := 100.0
  const SeparationDistance: real := 30.0

  datatype Vec = Vec(x: real, y: real)

  const Zero: Vec := Vec(0.0, 0.0)

  /** One simulated agent: its top-left corner, its velocity and its kind.
      The DOM element the source keeps beside these fields is not modelled. */
  datatype Entity = Entity(x: real, y: real, dx: real, dy: real, kind: Kind)

  /** Where an entity is; the distance tests look at nothing else. */
  function Pos(e: Entity): Vec
  {
    Vec(e.x, e.y)
  }

  /** The square of the Euclidean distance between two points. */
  function SqDist(p: Vec, q: Vec): (d: real)
    ensures d >= 0.0
  {
    var ex, ey := p.x - q.x, p.y - q.y;
    SumOfSquaresZero(ex, ey);
    ex * ex + ey * ey
  }

  /** The square of the source's `distance(e1, e2)`. */
  function DistSq(e1: Entity, e2: Entity): (d: real)
    ensures d >= 0.0
  {
    SqDist(Pos(e1), Pos(e2))
  }

  /** The squared distance vanishes exactly when the two positions coincide,
      which is why the source's `dist > 0` test skips entities on the same spot. */
  lemma DistSqZero(e1: Entity, e2: Entity)
    ensures e1.x == e2.x && e1.y == e2.y ==> DistSq(e1, e2) == 0.0
    ensures e1.x != e2.x || e1.y != e2.y ==> DistSq(e1, e2) > 0.0
  {
    var ex, ey := e1.x - e2.x, e1.y - e2.y;
    SumOfSquaresZero(ex, ey);
    if ex == 0.0 && ey == 0.0 {
      calc { DistSq(e1, e2); == SqDist(Pos(e1), Pos(e2)); == ex * ex + ey * ey; == 0.0; }
    } else {
      calc { DistSq(e1, e2); == SqDist(Pos(e1), Pos(e2)); == ex * ex + ey * ey; > 0.0; }
    }
  }

  lemma SquarePositive(a: real)
    requires a != 0.0
    ensures a * a > 0.0
  {
    if a > 0.0 {
      assert a * a > 0.0 * a;
    } else {
      assert (-a) * (-a) > 0.0 * (-a);
    }
  }

  lemma SquareNonNegative(a: real)
    ensures a * a >= 0.0
  {
    if a != 0.0 { SquarePositive(a); }
  }

  lemma SumOfSquaresPositive(a: real, b: real)
    requires a != 0.0 || b != 0.0
    ensures a * a + b * b > 0.0
  {
    SquareNonNegative(a);
    SquareNonNegative(b);
    if a != 0.0 {
      SquarePositive(a);
      calc { a * a + b * b; >= a * a; > 0.0; }
    } else {
      SquarePositive(b);
      calc { a * a + b * b; >= b * b; > 0.0; }
    }
  }

  lemma SumOfSquaresZero(a: real, b: real)
    ensures a * a + b * b >= 0.0
    ensures a == 0.0 && b == 0.0 ==> a * a + b * b == 0.0
    ensures a != 0.0 || b != 0.0 ==> a * a + b * b > 0.0
  {
    SquareNonNegative(a);
    SquareNonNegative(b);
    if a != 0.0 || b != 0.0 {
      SumOfSquaresPositive(a, b);
    }
  }

  lemma MulLe(a: real, b: real, c: real)
    requires 0.0 <= a && b <= c
    ensures a * b <= a * c
  {
    assert a * (c - b) >= 0.0;
  }

  lemma MulLt(a: real, b: real, c: real)
    requires 0.0 < a && b < c
    ensures a * b < a * c
  {
    assert a * (c - b) > 0.0;
  }

  lemma DistSqSymmetric(e1: Entity, e2: Entity)
    ensures DistSq(e1, e2) == DistSq(e2, e1)
  {
  }

  /** If `d` is the square root the source computes for `sq`, then comparing
      `d` against a non-negative bound is comparing `sq` against its square. */
  lemma RootComparison(d: real, sq: real, r: real)
    requires d >= 0.0 && d * d == sq && r >= 0.0
    ensures d < r <==> sq < r * r
    ensures 0.0 < d <==> 0.0 < sq
  {
    if d < r {
      MulLe(d, d, r);
      MulLt(r, d, r);
      calc { sq; == d * d; <= d * r; == r * d; < r * r; }
    } else {
      MulLe(r, r, d);
      MulLe(d, r, d);
      calc { r * r; <= r * d; == d * r; <= d * d; == sq; }
    }
    if d != 0.0 {
      SquarePositive(d);
      calc { sq; == d * d; > 0.0; }
    } else {
      calc { sq; == d * d; == 0.0; }
    }
  }

  /** The source's tests on `distance`, with `d` the square root it computes,
      are the squared tests this model makes. */
  lemma DistanceTests(d: real, e1: Entity, e2: Entity)
    requires d >= 0.0 && d * d == DistSq(e1, e2)
    ensures d < EntitySize <==> Close(e1, e2)
    ensures 0.0 < d && d < AvoidanceRadius <==> InRing(e1, e2, AvoidanceRadius)
    ensures 0.0 < d && d < SeparationDistance <==> InRing(e1, e2, SeparationDistance)
  {
    RootComparison(d, DistSq(e1, e2), EntitySize);
    RootComparison(d, DistSq(e1, e2), AvoidanceRadius);
    RootComparison(d, DistSq(e1, e2), SeparationDistance);
  }

  /** Comparing two square roots, as `calculateChase` does, is comparing their squares. */
  lemma RootOrder(d1: real, sq1: real, d2: real, sq2: real)
    requires d1 >= 0.0 && d1 * d1 == sq1
    requires d2 >= 0.0 && d2 * d2 == sq2
    ensures d1 < d2 <==> sq1 < sq2
  {
    RootComparison(d1, sq1, d2);
  }

  /** `distance(hunter, prey) < entitySize`, the contact test of the conversion pass. */
  predicate Close(hunter: Entity, prey: Entity)
  {
    DistSq(hunter, prey) < EntitySize * EntitySize
  }

  /** `dist > 0 && dist < radius`, the contributor test of avoidance and separation. */
  predicate InRing(e: Entity, other: Entity, radius: real)
  {
    0.0 < DistSq(e, other) < radius * radius
  }

  /** The position the wall bounce guarantees at the end of every frame. */
  predicate InArena(e: Entity)
  {
    0.0 <= e.x <= MaxCoord && 0.0 <= e.y <= MaxCoord
  }

  /** The source's `normalizeVector(x, y)`, with `len` the value of
      `Math.sqrt(x * x + y * y)` supplied by the caller. */
  function NormalizeVector(v: Vec, len: real): (r: Vec)
    requires len >= 0.0 && len * len == v.x * v.x + v.y * v.y
    ensures r == Zero <==> v == Zero
    ensures r != Zero ==> r.x * r.x + r.y * r.y == 1.0
    ensures r.x * len == v.x && r.y * len == v.y
  {
    if len == 0.0 then
      LengthZero(v, len);
      Zero
    else
      var r := Vec(v.x / len, v.y / len);
      assert r.x * len == v.x && r.y * len == v.y;
      UnitFromScaled(r.x, r.y, len, v);
      r
  }

  lemma LengthZero(v: Vec, len: real)
    requires len == 0.0 && len * len == v.x * v.x + v.y * v.y
    ensures v == Zero
  {
    if v != Zero {
      SumOfSquaresPositive(v.x, v.y);
      calc { 0.0; == len * len; == v.x * v.x + v.y * v.y; > 0.0; }
    }
  }

  lemma UnitFromScaled(a: real, b: real, len: real, v: Vec)
    requires len > 0.0
    requires a * len == v.x && b * len == v.y
    requires len * len == v.x * v.x + v.y * v.y
    ensures a * a + b * b == 1.0
  {
    SquarePositive(len);
    calc {
      (a * a + b * b) * (len * len);
      (a * len) * (a * len) + (b * len) * (b * len);
      v.x * v.x + v.y * v.y;
      len * len;
      1.0 * (len * len);
    }
    if a * a + b * b < 1.0 {
      MulLt(len * len, a * a + b * b, 1.0);
    } else if a * a + b * b > 1.0 {
      MulLt(len * len, 1.0, a * a + b * b);
    }
  }

  /** The indices of the entities of kind `k`, in roster order: the source's
      `entities.filter(e => e.letter === L)`, with object references kept as indices. */
  function Snapshot(s: seq<Entity>, k: Kind): (r: seq<nat>)
    ensures forall t :: 0 <= t < |r| ==> r[t] < |s| && s[r[t]].kind == k
    ensures forall i :: 0 <= i < |s| && s[i].kind == k ==> i in r
    ensures forall t, u :: 0 <= t < u < |r| ==> r[t] < r[u]
  {
    if |s| == 0 then []
    else
      var r := Snapshot(s[..|s| - 1], k);
      if s[|s| - 1].kind == k then r + [|s| - 1] else r
  }

  /** The partition depends on the kinds alone, so moving entities does not change it. */
  lemma {:induction false} SnapshotOfSameKinds(s: seq<Entity>, t: seq<Entity>, k: Kind)
    requires |s| == |t|
    requires forall i :: 0 <= i < |s| ==> s[i].kind == t[i].kind
    ensures Snapshot(s, k) == Snapshot(t, k)
  {
    if |s| > 0 {
      SnapshotOfSameKinds(s[..|s| - 1], t[..|t| - 1], k);
    }
  }

  /** Every entity lies in exactly one of the three lists. */
  lemma SnapshotPartitions(s: seq<Entity>, i: nat)
    requires i < |s|
    ensures i in Snapshot(s, s[i].kind)
    ensures forall k :: k != s[i].kind ==> i !in Snapshot(s, k)
  {
  }
}
