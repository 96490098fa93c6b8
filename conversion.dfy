/** The conversion pass at the end of `update` in game.js (lines 249-272).
    The three lists `Xs`, `Os`, `As` were taken at the start of the frame and
    are never rebuilt, so an entity relabelled by the first loop still acts
    under its old kind in the later loops. Only `letter` is written
    (`convertEntity`, lines 87-90); the text of the DOM element is not modelled. */
module Conversion {

  import opened Kinds
  import opened Entities

  /** Some entity named in `hunters` is in contact with `s[i]`. */
  predicate HuntedBy(s: seq<Entity>, hunters: seq<nat>, i: nat)
    requires i < |s|
  {
    exists h :: h in hunters && h < |s| && Close(s[h], s[i])
  }

  /** The roster after one of the three nested loops: every entity named in
      `prey` that some entity named in `hunters` touches is relabelled `k`. */
  function AfterLoop(s: seq<Entity>, hunters: seq<nat>, prey: seq<nat>, k: Kind): (r: seq<Entity>)
    ensures |r| == |s|
    ensures forall i :: 0 <= i < |s| ==> Pos(r[i]) == Pos(s[i]) && r[i].dx == s[i].dx && r[i].dy == s[i].dy
    ensures forall i :: 0 <= i < |s| ==> (i in prey && HuntedBy(s, hunters, i) ==> r[i].kind == k)
    ensures forall i :: 0 <= i < |s| ==> (r[i] != s[i] ==> i in prey && HuntedBy(s, hunters, i))
  {
    seq(|s|, i requires 0 <= i < |s| =>
      if i in prey && HuntedBy(s, hunters, i) then s[i].(kind := k) else s[i])
  }

  /** Some entity whose kind converts `s[i]` is in contact with it. */
  predicate Threatened(s: seq<Entity>, i: nat)
    requires i < |s|
  {
    exists j :: 0 <= j < |s| && s[j].kind == Predator(s[i].kind) && Close(s[j], s[i])
  }

  /** The roster after the whole pass, judged against the kinds the roster had
      when the pass began. */
  function Converted(s: seq<Entity>): (r: seq<Entity>)
    ensures |r| == |s|
    ensures forall i :: 0 <= i < |s| ==>
      r[i].x == s[i].x && r[i].y == s[i].y && r[i].dx == s[i].dx && r[i].dy == s[i].dy
    ensures forall i :: 0 <= i < |s| ==> r[i].kind == s[i].kind || r[i].kind == Predator(s[i].kind)
    ensures forall i :: 0 <= i < |s| ==> (r[i].kind != s[i].kind <==> Threatened(s, i))
  {
    seq(|s|, i requires 0 <= i < |s| =>
      if Threatened(s, i) then s[i].(kind := Predator(s[i].kind)) else s[i])
  }

  /** Nobody is relabelled twice: a converted entity's new kind is not one that
      a second conversion in the same pass could produce from its old kind. */
  lemma NoDoubleConversion(s: seq<Entity>, i: nat)
    requires i < |s|
    ensures Converted(s)[i].kind != Predator(Predator(s[i].kind))
  {
  }

  /** An entity acts under the kind it had when the pass began, whether or
      not it is converted itself during the pass. */
  lemma ActsUnderSnapshotKind(s: seq<Entity>, j: nat, i: nat)
    requires j < |s| && i < |s|
    requires s[i].kind == Beats(s[j].kind) && Close(s[j], s[i])
    ensures Converted(s)[i].kind == s[j].kind
  {
    assert Threatened(s, i);
  }

  /** Two rosters that agree on positions make the same contacts. */
  predicate SamePositions(s: seq<Entity>, t: seq<Entity>)
  {
    |s| == |t| && forall i :: 0 <= i < |s| ==> Pos(s[i]) == Pos(t[i])
  }

  /** Being touched by the members of a snapshot list is being touched by an
      entity of that kind. */
  lemma HuntedBySnapshot(s: seq<Entity>, k: Kind, i: nat)
    requires i < |s|
    ensures HuntedBy(s, Snapshot(s, k), i) <==>
      exists j :: 0 <= j < |s| && s[j].kind == k && Close(s[j], s[i])
  {
    var xs := Snapshot(s, k);
    if HuntedBy(s, xs, i) {
      var h :| h in xs && h < |s| && Close(s[h], s[i]);
      assert s[h].kind == k;
    }
    if exists j :: 0 <= j < |s| && s[j].kind == k && Close(s[j], s[i]) {
      var j :| 0 <= j < |s| && s[j].kind == k && Close(s[j], s[i]);
      assert j in xs;
    }
  }

  lemma HuntedBySamePositions(s: seq<Entity>, t: seq<Entity>, hunters: seq<nat>, i: nat)
    requires i < |s| && SamePositions(s, t)
    ensures HuntedBy(s, hunters, i) <==> HuntedBy(t, hunters, i)
  {
    if HuntedBy(s, hunters, i) {
      var h :| h in hunters && h < |s| && Close(s[h], s[i]);
      assert DistSq(s[h], s[i]) == DistSq(t[h], t[i]);
    }
    if HuntedBy(t, hunters, i) {
      var h :| h in hunters && h < |t| && Close(t[h], t[i]);
      assert DistSq(s[h], s[i]) == DistSq(t[h], t[i]);
    }
  }

  /** The three loops of the source, run one after the other against the
      partition taken before them, produce exactly Converted. */
  lemma {:induction false} ThreeLoopsConvert(s: seq<Entity>)
    ensures var xs, os, ps := Snapshot(s, Rock), Snapshot(s, Scissors), Snapshot(s, Paper);
      AfterLoop(AfterLoop(AfterLoop(s, xs, os, Rock), os, ps, Scissors), ps, xs, Paper) == Converted(s)
  {
    var xs, os, ps := Snapshot(s, Rock), Snapshot(s, Scissors), Snapshot(s, Paper);
    var s1 := AfterLoop(s, xs, os, Rock);
    var s2 := AfterLoop(s1, os, ps, Scissors);
    var s3 := AfterLoop(s2, ps, xs, Paper);
    var c := Converted(s);
    assert SamePositions(s, s1);
    assert SamePositions(s, s2);
    forall i | 0 <= i < |s|
      ensures s3[i] == c[i]
    {
      SnapshotPartitions(s, i);
      HuntedBySnapshot(s, Predator(s[i].kind), i);
      HuntedBySamePositions(s, s1, os, i);
      HuntedBySamePositions(s, s2, ps, i);
      match s[i].kind
      case Scissors =>
        assert s3[i] == s1[i];
      case Paper =>
        assert s1[i] == s[i];
        assert s3[i] == s2[i];
      case Rock =>
        assert s1[i] == s[i];
        assert s2[i] == s[i];
    }
  }

  /** One of the three nested loops, in place: for each hunter in list order,
      each prey in contact with it is relabelled `k` (`convertEntity`). */
  method ConvertLoop(a: array<Entity>, hunters: seq<nat>, prey: seq<nat>, k: Kind)
    requires forall t :: 0 <= t < |hunters| ==> hunters[t] < a.Length
    requires forall t :: 0 <= t < |prey| ==> prey[t] < a.Length
    modifies a
    ensures a[..] == AfterLoop(old(a[..]), hunters, prey, k)
  {
    ghost var s := a[..];
    var p := 0;
    while p < |hunters|
      invariant 0 <= p <= |hunters|
      invariant a[..] == AfterLoop(s, hunters[..p], prey, k)
    {
      var h := hunters[p];
      var q := 0;
      while q < |prey|
        invariant 0 <= q <= |prey|
        invariant forall i :: 0 <= i < a.Length ==>
          a[i] == (if i in prey && (HuntedBy(s, hunters[..p], i) || (i in prey[..q] && Close(s[h], s[i])))
                   then s[i].(kind := k) else s[i])
      {
        var i := prey[q];
        assert prey[..q + 1] == prey[..q] + [i];
        assert Pos(a[h]) == Pos(s[h]) && Pos(a[i]) == Pos(s[i]);
        if Close(a[h], a[i]) {
          a[i] := a[i].(kind := k);
        }
        q := q + 1;
      }
      assert prey[..q] == prey;
      assert hunters[..p + 1] == hunters[..p] + [h];
      p := p + 1;
    }
    assert hunters[..p] == hunters;
  }

  /** The whole conversion pass, given the lists taken at the start of the frame. */
  method ConversionPass(a: array<Entity>, xs: seq<nat>, os: seq<nat>, ps: seq<nat>)
    requires xs == Snapshot(a[..], Rock)
    requires os == Snapshot(a[..], Scissors)
    requires ps == Snapshot(a[..], Paper)
    modifies a
    ensures a[..] == Converted(old(a[..]))
  {
    ConvertLoop(a, xs, os, Rock);
    ConvertLoop(a, os, ps, Scissors);
    ConvertLoop(a, ps, xs, Paper);
    ThreeLoopsConvert(old(a[..]));
  }

  function At(x: real, y: real, k: Kind): Entity
  {
    Entity(x, y, 0.0, 0.0, k)
  }

  /** A chain along a line: X at 0, O at 20, A at 40. The O turns X, and the A
      still turns O because the first O counts as an O for the whole pass; the
      X, 40 away from the A, keeps its kind. */
  lemma {:induction false} ChainedConversion()
    ensures var r := Converted([At(0.0, 0.0, Rock), At(20.0, 0.0, Scissors), At(40.0, 0.0, Paper)]);
      r[0].kind == Rock && r[1].kind == Rock && r[2].kind == Scissors
  {
    var s := [At(0.0, 0.0, Rock), At(20.0, 0.0, Scissors), At(40.0, 0.0, Paper)];
    assert Close(s[0], s[1]);
    assert Threatened(s, 1);
    assert Close(s[1], s[2]);
    assert Threatened(s, 2);
    forall j | 0 <= j < |s| && s[j].kind == Paper
      ensures !Close(s[j], s[0])
    {
      assert j == 2;
      assert DistSq(s[2], s[0]) == 1600.0;
    }
    assert !Threatened(s, 0);
  }

  /** Three entities all within reach of each other: every one of them is
      converted, so the kinds rotate. */
  lemma {:induction false} ThreeWayRotation()
    ensures var r := Converted([At(0.0, 0.0, Rock), At(10.0, 0.0, Scissors), At(0.0, 10.0, Paper)]);
      r[0].kind == Paper && r[1].kind == Rock && r[2].kind == Scissors
  {
    var s := [At(0.0, 0.0, Rock), At(10.0, 0.0, Scissors), At(0.0, 10.0, Paper)];
    assert Close(s[2], s[0]) && Close(s[0], s[1]) && Close(s[1], s[2]);
    assert Threatened(s, 0) && Threatened(s, 1) && Threatened(s, 2);
  }

  /** Contact is strict: at a distance of exactly `entitySize` nothing happens. */
  lemma {:induction false} ContactIsStrict()
    ensures Converted([At(0.0, 0.0, Rock), At(28.0, 0.0, Scissors)])[1].kind == Scissors
    ensures Converted([At(0.0, 0.0, Rock), At(27.5, 0.0, Scissors)])[1].kind == Rock
  {
    var s := [At(0.0, 0.0, Rock), At(28.0, 0.0, Scissors)];
    forall j | 0 <= j < |s| && s[j].kind == Rock
      ensures !Close(s[j], s[1])
    {
      assert j == 0;
      assert DistSq(s[0], s[1]) == 784.0;
    }
    assert !Threatened(s, 1);
    var t := [At(0.0, 0.0, Rock), At(27.5, 0.0, Scissors)];
    assert Close(t[0], t[1]);
    assert Threatened(t, 1);
  }
}
