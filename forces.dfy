/** The discrete part of the steering forces of game.js: which lists each kind
    passes to the force functions, which neighbours contribute to avoidance and
    separation, and which prey the chase heads for. Entities are named by their
    index in the roster `s`, as the source's lists hold references to them. The
    weighted averages and their normalisation are floating-point work that is
    not modelled; a force is either the zero-contributor `[0, 0]` or a blend
    over a non-empty list of contributors (whose contributions may still cancel
    to `[0, 0]`). */
module Forces {

  import opened Wrappers
  import opened Kinds
  import opened Entities

  /** The result of `calculateAvoidance` and `calculateSeparation`: the
      `return [0, 0]` branch when no neighbour contributes, otherwise the
      normalised average of the contributors' falloff-weighted unit vectors
      (its value, which is `[0, 0]` again when they cancel, is not modelled). */
  datatype Force = ZeroForce | Blend(contributors: seq<nat>)

  function ForceOf(contributors: seq<nat>): (f: Force)
    ensures f.ZeroForce? <==> |contributors| == 0
    ensures f.Blend? ==> f.contributors == contributors
  {
    if |contributors| == 0 then ZeroForce else Blend(contributors)
  }

  /** Every entry of `ids` names an entity of the roster `s`. */
  predicate ValidRefs(s: seq<Entity>, ids: seq<nat>)
  {
    forall t :: 0 <= t < |ids| ==> ids[t] < |s|
  }

  /** The list an entity of kind `k` passes to `calculateAvoidance`. */
  function Threats(s: seq<Entity>, k: Kind): (r: seq<nat>)
    ensures forall t :: 0 <= t < |r| ==> r[t] < |s| && s[r[t]].kind in AvoidKinds(k)
    ensures forall j :: 0 <= j < |s| && s[j].kind in AvoidKinds(k) ==> j in r
  {
    match k
    case Rock => Snapshot(s, Paper)
    case Scissors => Snapshot(s, Rock)
    case Paper => Snapshot(s, Scissors) + Snapshot(s, Rock)
  }

  /** The list an entity of kind `k` passes to `calculateChase`: exactly the
      entities it would convert on contact. */
  function PreyList(s: seq<Entity>, k: Kind): (r: seq<nat>)
    ensures forall t :: 0 <= t < |r| ==> r[t] < |s| && s[r[t]].kind == Beats(k)
    ensures forall j :: 0 <= j < |s| && s[j].kind == Beats(k) ==> j in r
  {
    Snapshot(s, ChaseKind(k))
  }

  /** An entity never appears in its own threat or prey list. */
  lemma TargetsExcludeSelf(s: seq<Entity>, i: nat)
    requires i < |s|
    ensures i !in Threats(s, s[i].kind)
    ensures i !in PreyList(s, s[i].kind)
  {
  }

  /** The threats of `s[i]` among `ids` that take part in `calculateAvoidance`:
      those at a distance strictly between 0 and the avoidance radius, in list order. */
  function AvoidanceContributors(s: seq<Entity>, i: nat, ids: seq<nat>): (r: seq<nat>)
    requires i < |s|
    requires ValidRefs(s, ids)
    ensures |r| <= |ids| && ValidRefs(s, r)
    ensures forall j: nat :: j in r <==> j in ids && j < |s| && InRing(s[i], s[j], AvoidanceRadius)
  {
    if |ids| == 0 then []
    else
      var r := AvoidanceContributors(s, i, ids[..|ids| - 1]);
      var j := ids[|ids| - 1];
      assert ids == ids[..|ids| - 1] + [j];
      if InRing(s[i], s[j], AvoidanceRadius) then r + [j] else r
  }

  function Avoidance(s: seq<Entity>, i: nat, ids: seq<nat>): (f: Force)
    requires i < |s|
    requires ValidRefs(s, ids)
    ensures f.ZeroForce? <==> forall t :: 0 <= t < |ids| ==> !InRing(s[i], s[ids[t]], AvoidanceRadius)
  {
    var r := AvoidanceContributors(s, i, ids);
    assert |r| > 0 ==> r[0] in r;
    assert forall t :: 0 <= t < |ids| ==> ids[t] in ids;
    ForceOf(r)
  }

  /** The entities among `s[..n]` that take part in `calculateSeparation` for
      `s[i]`: every other entity (the entity itself is skipped) at a distance
      strictly between 0 and the separation distance, in roster order. */
  function SeparationContributors(s: seq<Entity>, i: nat, n: nat): (r: seq<nat>)
    requires i < |s| && n <= |s|
    ensures |r| <= n && ValidRefs(s, r)
    ensures forall j: nat :: j in r <==> j < n && j != i && InRing(s[i], s[j], SeparationDistance)
  {
    if n == 0 then []
    else
      var r := SeparationContributors(s, i, n - 1);
      if n - 1 != i && InRing(s[i], s[n - 1], SeparationDistance) then r + [n - 1] else r
  }

  function Separation(s: seq<Entity>, i: nat): (f: Force)
    requires i < |s|
    ensures f.ZeroForce? <==> forall j :: 0 <= j < |s| && j != i ==> !InRing(s[i], s[j], SeparationDistance)
  {
    var r := SeparationContributors(s, i, |s|);
    assert |r| > 0 ==> r[0] in r;
    ForceOf(r)
  }

  /** The position in `ids` of the prey `calculateChase` settles on: one at the
      least distance, the earliest of them when several tie (the source replaces
      its choice only on a strictly smaller distance); none for an empty list. */
  function Nearest(s: seq<Entity>, i: nat, ids: seq<nat>): (r: Option<nat>)
    requires i < |s|
    requires ValidRefs(s, ids)
    ensures r.None? <==> |ids| == 0
    ensures r.Some? ==> r.value < |ids|
    ensures r.Some? ==> forall u :: 0 <= u < |ids| ==>
      DistSq(s[i], s[ids[r.value]]) <= DistSq(s[i], s[ids[u]])
    ensures r.Some? ==> forall u :: 0 <= u < r.value ==>
      DistSq(s[i], s[ids[r.value]]) < DistSq(s[i], s[ids[u]])
  {
    if |ids| == 0 then None
    else
      var last := |ids| - 1;
      var r := Nearest(s, i, ids[..last]);
      if r.None? || DistSq(s[i], s[ids[last]]) < DistSq(s[i], s[ids[r.value]]) then Some(last)
      else r
  }

  /** The vector `calculateChase` normalises: from the entity towards the chosen
      prey, or `[0, 0]` when the list is empty. */
  function Chase(s: seq<Entity>, i: nat, ids: seq<nat>): (v: Vec)
    requires i < |s|
    requires ValidRefs(s, ids)
    ensures |ids| == 0 ==> v == Zero
    ensures |ids| > 0 ==> exists t :: (0 <= t < |ids|
              && v == Vec(s[ids[t]].x - s[i].x, s[ids[t]].y - s[i].y)
              && (forall u :: 0 <= u < |ids| ==> DistSq(s[i], s[ids[t]]) <= DistSq(s[i], s[ids[u]]))
              && (forall u :: 0 <= u < t ==> DistSq(s[i], s[ids[t]]) < DistSq(s[i], s[ids[u]])))
  {
    match Nearest(s, i, ids)
    case None => Zero
    case Some(t) => Vec(s[ids[t]].x - s[i].x, s[ids[t]].y - s[i].y)
  }

  /** The accumulator loop of `calculateAvoidance`, keeping of each threat only
      whether it counts. */
  method CalculateAvoidance(s: seq<Entity>, i: nat, threats: seq<nat>) returns (f: Force)
    requires i < |s|
    requires ValidRefs(s, threats)
    ensures f == Avoidance(s, i, threats)
  {
    var used: seq<nat> := [];
    var count := 0;
    var t := 0;
    while t < |threats|
      invariant 0 <= t <= |threats|
      invariant used == AvoidanceContributors(s, i, threats[..t])
      invariant count == |used|
    {
      var j := threats[t];
      assert threats[..t + 1][..t] == threats[..t];
      if 0.0 < DistSq(s[i], s[j]) && DistSq(s[i], s[j]) < AvoidanceRadius * AvoidanceRadius {
        used := used + [j];
        count := count + 1;
      }
      t := t + 1;
    }
    assert threats[..t] == threats;
    if count > 0 {
      f := Blend(used);
    } else {
      f := ZeroForce;
    }
  }

  /** The loop of `calculateSeparation`, which skips the entity itself. */
  method CalculateSeparation(s: seq<Entity>, i: nat) returns (f: Force)
    requires i < |s|
    ensures f == Separation(s, i)
  {
    var used: seq<nat> := [];
    var count := 0;
    var j := 0;
    while j < |s|
      invariant 0 <= j <= |s|
      invariant used == SeparationContributors(s, i, j)
      invariant count == |used|
    {
      if j == i {
        j := j + 1;
        continue;
      }
      if 0.0 < DistSq(s[i], s[j]) && DistSq(s[i], s[j]) < SeparationDistance * SeparationDistance {
        used := used + [j];
        count := count + 1;
      }
      j := j + 1;
    }
    if count > 0 {
      f := Blend(used);
    } else {
      f := ZeroForce;
    }
  }

  /** The loop of `calculateChase`: `closest` plays `closestPrey` and `None`
      stands for the initial `minDist = Infinity`. */
  method CalculateChase(s: seq<Entity>, i: nat, prey: seq<nat>) returns (v: Vec)
    requires i < |s|
    requires ValidRefs(s, prey)
    ensures v == Chase(s, i, prey)
  {
    var closest: Option<nat> := None;
    var minDist := 0.0;
    var t := 0;
    while t < |prey|
      invariant 0 <= t <= |prey|
      invariant closest == Nearest(s, i, prey[..t])
      invariant closest.Some? ==> minDist == DistSq(s[i], s[prey[closest.value]])
    {
      assert prey[..t + 1][..t] == prey[..t];
      var dist := DistSq(s[i], s[prey[t]]);
      if closest.None? || dist < minDist {
        minDist := dist;
        closest := Some(t);
      }
      t := t + 1;
    }
    assert prey[..t] == prey;
    if closest.Some? {
      var p := prey[closest.value];
      v := Vec(s[p].x - s[i].x, s[p].y - s[i].y);
    } else {
      v := Zero;
    }
  }
}
