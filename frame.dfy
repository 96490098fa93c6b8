/** One call of `update` in game.js (lines 175-273), without the rendering and
    the `requestAnimationFrame` that schedules the next call: the partition by
    kind, the movement loop, then the conversion pass against that partition. */
module Frame {

  import opened Kinds
  import opened Entities
  import opened Motion
  import opened Conversion

  /** The roster after one frame. */
  function NextFrame(s: seq<Entity>, steer: Steering): (r: seq<Entity>)
    ensures |r| == |s|
    ensures forall i :: 0 <= i < |r| ==> InArena(r[i])
    ensures forall i :: 0 <= i < |r| ==> r[i].kind == s[i].kind || r[i].kind == Predator(s[i].kind)
  {
    var moved := MovedPrefix(s, steer, |s|);
    var r := Converted(moved);
    assert forall i :: 0 <= i < |r| ==> Pos(r[i]) == Pos(moved[i]);
    r
  }

  /** The roster after one call of `update` per steering function in
      `steers`, in order (line 274 schedules the next call on the roster the
      previous one left). Each frame has its own steering, since the random
      wander of lines 216-217 differs from frame to frame. After at least one
      frame every entity is inside the arena, whatever the steering does. */
  function Run(s: seq<Entity>, steers: seq<Steering>): (r: seq<Entity>)
    ensures |r| == |s|
    ensures |steers| > 0 ==> forall i :: 0 <= i < |r| ==> InArena(r[i])
  {
    if |steers| == 0 then s
    else NextFrame(Run(s, steers[..|steers| - 1]), steers[|steers| - 1])
  }

  /** Running some frames and then some more is one longer run: a run depends
      only on the roster it starts from and the frames' steering. */
  lemma {:induction false} RunComposes(s: seq<Entity>, first: seq<Steering>, rest: seq<Steering>)
    ensures Run(s, first + rest) == Run(Run(s, first), rest)
  {
    if |rest| == 0 {
      assert first + rest == first;
    } else {
      var n := |first + rest|;
      assert (first + rest)[..n - 1] == first + rest[..|rest| - 1];
      assert (first + rest)[n - 1] == rest[|rest| - 1];
      RunComposes(s, first, rest[..|rest| - 1]);
    }
  }

  /** `update`, in place over the roster `entities`. */
  method Update(a: array<Entity>, steer: Steering)
    modifies a
    ensures a[..] == NextFrame(old(a[..]), steer)
  {
    var xs := Snapshot(a[..], Rock);
    var os := Snapshot(a[..], Scissors);
    var ps := Snapshot(a[..], Paper);
    ghost var before := a[..];
    MovePass(a, steer);
    SnapshotOfSameKinds(before, a[..], Rock);
    SnapshotOfSameKinds(before, a[..], Scissors);
    SnapshotOfSameKinds(before, a[..], Paper);
    ConversionPass(a, xs, os, ps);
  }
}
