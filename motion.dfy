/** The movement loop of `update` in game.js (lines 180-247): each entity in
    roster order gets its new velocity, moves by it and bounces off the walls.
    The velocity comes from the steering numerics (forces, blend, smoothing,
    random wander, renormalisation to `speed`), which are not modelled: they
    are the parameter `steer`, applied to the roster as it stands when the
    entity's turn comes, so entities later in the roster see the earlier ones
    at their new positions, as they do in the source. */
module Motion {

  import opened Kinds
  import opened Entities

  /** The steering numerics of one entity: the roster as it stands and the
      entity's index give the entity's final velocity for this frame. */
  type Steering = (seq<Entity>, nat) -> Vec

  /** The point of `[0, MaxCoord]` that `p` is clamped to. */
  function Clamp(p: real): (c: real)
    ensures 0.0 <= c <= MaxCoord
    ensures 0.0 <= p <= MaxCoord ==> c == p
  {
    if p < 0.0 then 0.0 else if p > MaxCoord then MaxCoord else p
  }

  function Abs(a: real): real
  {
    if a < 0.0 then -a else a
  }

  /** The clamp moves `p` to the nearest point of the interval. */
  lemma ClampIsNearest(p: real, q: real)
    requires 0.0 <= q <= MaxCoord
    ensures Abs(Clamp(p) - p) <= Abs(q - p)
  {
  }

  /** One axis of the wall bounce (lines 229-243): the coordinate is brought
      back into `[0, 800 - entitySize]`, and the velocity component is negated
      exactly when the coordinate had to move. */
  function Bounce(p: real, v: real): (r: (real, real))
    ensures r.0 == Clamp(p)
    ensures r.1 == if r.0 == p then v else -v
  {
    if p < 0.0 then (0.0, -v)
    else if p > MaxCoord then (MaxCoord, -v)
    else (p, v)
  }

  /** Bouncing twice changes nothing more: a bounced coordinate is in range. */
  lemma BounceIdempotent(p: real, v: real, w: real)
    ensures Bounce(Bounce(p, v).0, w) == (Bounce(p, v).0, w)
  {
  }

  /** One entity's turn once its velocity `v` is known (lines 221-243): the
      velocity is stored, the entity moves by it, then each axis bounces. */
  function Step(e: Entity, v: Vec): (r: Entity)
    ensures InArena(r)
    ensures r.kind == e.kind
    ensures (r.x, r.dx) == Bounce(e.x + v.x, v.x) && (r.y, r.dy) == Bounce(e.y + v.y, v.y)
    ensures (r.dx == v.x || r.dx == -v.x) && (r.dy == v.y || r.dy == -v.y)
    ensures InArena(e.(x := e.x + v.x, y := e.y + v.y)) ==> r == Entity(e.x + v.x, e.y + v.y, v.x, v.y, e.kind)
  {
    var (x, dx) := Bounce(e.x + v.x, v.x);
    var (y, dy) := Bounce(e.y + v.y, v.y);
    Entity(x, y, dx, dy, e.kind)
  }

  /** The roster after the first `n` entities have taken their turn. */
  function MovedPrefix(s: seq<Entity>, steer: Steering, n: nat): (r: seq<Entity>)
    requires n <= |s|
    ensures |r| == |s|
    ensures forall j :: 0 <= j < |s| ==> r[j].kind == s[j].kind
    ensures forall j :: 0 <= j < n ==> InArena(r[j])
    ensures forall j :: n <= j < |s| ==> r[j] == s[j]
  {
    if n == 0 then s
    else
      var t := MovedPrefix(s, steer, n - 1);
      t[n - 1 := Step(t[n - 1], steer(t, n - 1))]
  }

  /** The movement loop, in place over the roster. */
  method MovePass(a: array<Entity>, steer: Steering)
    modifies a
    ensures a[..] == MovedPrefix(old(a[..]), steer, a.Length)
  {
    var i := 0;
    while i < a.Length
      invariant 0 <= i <= a.Length
      invariant a[..] == MovedPrefix(old(a[..]), steer, i)
    {
      var v := steer(a[..], i);
      a[i] := Step(a[i], v);
      i := i + 1;
    }
  }
}
