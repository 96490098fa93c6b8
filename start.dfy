/** The start button's handler in game.js (lines 277-296) and `createEntities`
    (lines 56-79): the per-kind count is clamped and the roster is laid out as
    all the X's, then all the O's, then all the A's. `Math.random` is replaced
    by the draws the caller supplies; the DOM work is not modelled. */
module Start {

  import opened Wrappers
  import opened Kinds
  import opened Entities

  const MaxCount: int := 50

  /** Lines 285-287: `parsed` is what `parseInt` returned, `None` for NaN. */
  function ClampCount(parsed: Option<int>): (n: int)
    ensures 1 <= n <= MaxCount
    ensures parsed.Some? && 1 <= parsed.value <= MaxCount ==> n == parsed.value
    ensures parsed.None? || parsed.value < 1 ==> n == 1
    ensures parsed.Some? && parsed.value > MaxCount ==> n == MaxCount
  {
    var count := if parsed.None? || parsed.value < 1 then 1 else parsed.value;
    if count > MaxCount then MaxCount else count
  }

  lemma ClampCountIdempotent(parsed: Option<int>)
    ensures ClampCount(Some(ClampCount(parsed))) == ClampCount(parsed)
  {
  }

  /** The random numbers one entity consumes: `rx` and `ry` are the two
      `Math.random()` values of its position, `heading` is
      `(cos(angle) * speed, sin(angle) * speed)` for the third. */
  datatype Draw = Draw(rx: real, ry: real, heading: Vec)

  /** `Math.random()` returns a number in `[0, 1)`. */
  predicate ValidDraw(d: Draw)
  {
    0.0 <= d.rx < 1.0 && 0.0 <= d.ry < 1.0
  }

  predicate ValidDraws(draws: seq<Draw>)
  {
    forall i :: 0 <= i < |draws| ==> ValidDraw(draws[i])
  }

  /** The entity one iteration of `createEntities` builds. */
  function Spawn(k: Kind, d: Draw): (e: Entity)
    requires ValidDraw(d)
    ensures InArena(e)
    ensures e.kind == k
    ensures e.dx == d.heading.x && e.dy == d.heading.y
  {
    MulLe(d.rx, 0.0, MaxCoord);
    MulLe(MaxCoord, d.rx, 1.0);
    MulLe(d.ry, 0.0, MaxCoord);
    MulLe(MaxCoord, d.ry, 1.0);
    Entity(d.rx * MaxCoord, d.ry * MaxCoord, d.heading.x, d.heading.y, k)
  }

  /** `createEntities(letter, count)`: `count` fresh entities of kind `k`, the
      `i`-th built from `draws[i]`. */
  method CreateEntities(k: Kind, count: nat, draws: seq<Draw>) returns (arr: seq<Entity>)
    requires count <= |draws| && ValidDraws(draws)
    ensures |arr| == count
    ensures forall i :: 0 <= i < count ==> arr[i] == Spawn(k, draws[i])
  {
    arr := [];
    var i := 0;
    while i < count
      invariant 0 <= i <= count
      invariant |arr| == i
      invariant forall j :: 0 <= j < i ==> arr[j] == Spawn(k, draws[j])
    {
      arr := arr + [Spawn(k, draws[i])];
      i := i + 1;
    }
  }

  /** The roster a click produces: `count` X's, then `count` O's, then `count`
      A's, each inside the arena. */
  method StartRoster(parsed: Option<int>, draws: seq<Draw>) returns (entities: seq<Entity>, count: int)
    requires 3 * ClampCount(parsed) <= |draws| && ValidDraws(draws)
    ensures count == ClampCount(parsed)
    ensures |entities| == 3 * count
    ensures forall i :: 0 <= i < |entities| ==> InArena(entities[i])
    ensures forall i :: 0 <= i < |entities| ==>
      entities[i].kind == (if i < count then Rock else if i < 2 * count then Scissors else Paper)
    ensures forall i :: 0 <= i < |entities| ==> entities[i] == Spawn(entities[i].kind, draws[i])
  {
    count := ClampCount(parsed);
    var entitiesX := CreateEntities(Rock, count, draws);
    var entitiesO := CreateEntities(Scissors, count, draws[count..]);
    var entitiesA := CreateEntities(Paper, count, draws[2 * count..]);
    entities := entitiesX + entitiesO + entitiesA;
  }
}
