/** The asteroid field of the defense mini-game: the ordered list of live ids,
    the destroy-nearest operation and the loop-back rule of a single asteroid. */
module Asteroids {
  import opened Optional
  import opened Seqs

  /** Number of asteroids created with the field. */
  const FieldSize: nat := 20
  /** An asteroid closer to the planet than this is sent back out. */
  const LoopBackDistance: real := 2.5
  /** Sent-back asteroids land at `RespawnBase + RespawnSpan * u`. */
  const RespawnBase: real := 15.0
  const RespawnSpan: real := 5.0
  /** Approach speed toward the planet, in units per second. */
  const Speed: real := 2.0

  datatype Vec3 = Vec3(x: real, y: real, z: real)

  /** Squared distance from the planet at the origin. Distances are
      non-negative, so squared distances put asteroids in the same order as
      `position.length()` does. */
  function SqLength(v: Vec3): (r: real)
    ensures r >= 0.0
    ensures v == Vec3(0.0, 0.0, 0.0) ==> r == 0.0
  {
    v.x * v.x + v.y * v.y + v.z * v.z
  }

  /** The field's initial live ids: 0, 1, ..., 19 in order. */
  function InitialIds(): (ids: seq<nat>)
    ensures |ids| == FieldSize
    ensures forall i :: 0 <= i < |ids| ==> ids[i] == i
    ensures NoDup(ids)
  {
    seq(FieldSize, (i: int) requires 0 <= i => i as nat)
  }

  /** The test of `prev.filter(id => id !== closestId)`. */
  function Other(x: nat): (keep: nat -> bool)
    ensures forall y :: keep(y) == (y != x)
  {
    y => y != x
  }

  /** The live ids once `x` has been destroyed. */
  function Without(ids: seq<nat>, x: nat): (r: seq<nat>)
    ensures x !in r && |r| <= |ids|
    ensures forall i :: 0 <= i < |r| ==> r[i] in ids
    ensures forall i :: 0 <= i < |ids| && ids[i] != x ==> ids[i] in r
  {
    Filter(ids, Other(x))
  }

  /** Removing the id at position `k` from a list without duplicates drops
      exactly that entry and keeps the others in their order. */
  lemma WithoutChosen(ids: seq<nat>, k: nat)
    requires NoDup(ids) && k < |ids|
    ensures Without(ids, ids[k]) == ids[..k] + ids[k + 1..]
    ensures |Without(ids, ids[k])| == |ids| - 1
    ensures NoDup(Without(ids, ids[k]))
  {
    var x := ids[k];
    var before, after := ids[..k], ids[k + 1..];
    assert ids == before + [x] + after;
    assert forall y :: y in before ==> Other(x)(y) by {
      forall j | 0 <= j < |before| ensures before[j] != x {
        assert before[j] == ids[j];
      }
    }
    assert forall y :: y in after ==> Other(x)(y) by {
      forall j | 0 <= j < |after| ensures after[j] != x {
        assert after[j] == ids[k + 1 + j];
      }
    }
    FilterDropsOne(before, x, after, Other(x));
    FilterNoDup(ids, Other(x));
  }

  /** Index, among the first `n` live ids, of the asteroid the `forEach` scan
      of `destroyAsteroid` settles on: an id that has a mesh replaces the
      current choice only when it is strictly closer. */
  function ClosestIndex(ids: seq<nat>, meshes: map<nat, Vec3>, n: nat): (k: Option<nat>)
    requires n <= |ids|
    ensures k.Some? ==> k.value < n && ids[k.value] in meshes
    decreases n
  {
    if n == 0 then None
    else
      var prev := ClosestIndex(ids, meshes, n - 1);
      var id := ids[n - 1];
      if id in meshes && (prev.None? || SqLength(meshes[id]) < SqLength(meshes[ids[prev.value]]))
      then Some(n - 1)
      else prev
  }

  /** The scan finds nothing exactly when no scanned id has a mesh; otherwise
      its choice is no farther than any scanned id with a mesh and strictly
      closer than every one before it, so ties go to the earliest. */
  lemma {:induction false} ClosestIndexIsNearest(ids: seq<nat>, meshes: map<nat, Vec3>, n: nat)
    requires n <= |ids|
    ensures ClosestIndex(ids, meshes, n).None? <==> forall j :: 0 <= j < n ==> ids[j] !in meshes
    ensures var k := ClosestIndex(ids, meshes, n);
      k.Some? ==> forall j :: 0 <= j < n && ids[j] in meshes ==>
        SqLength(meshes[ids[k.value]]) <= SqLength(meshes[ids[j]])
    ensures var k := ClosestIndex(ids, meshes, n);
      k.Some? ==> forall j :: 0 <= j < k.value && ids[j] in meshes ==>
        SqLength(meshes[ids[k.value]]) < SqLength(meshes[ids[j]])
    decreases n
  {
    if n > 0 {
      ClosestIndexIsNearest(ids, meshes, n - 1);
    }
  }

  /** Id of the asteroid `destroyAsteroid` picks, if any: none exactly when
      no live id has a mesh, otherwise a live id with a mesh. */
  function ClosestId(ids: seq<nat>, meshes: map<nat, Vec3>): (c: Option<nat>)
    ensures c.None? <==> forall j :: 0 <= j < |ids| ==> ids[j] !in meshes
    ensures c.Some? ==> c.value in ids && c.value in meshes
  {
    ClosestIndexIsNearest(ids, meshes, |ids|);
    var k := ClosestIndex(ids, meshes, |ids|);
    if k.None? then None
    else
      Some(ids[k.value])
  }

  /** The chosen id is no farther from the planet than any live id with a
      mesh, and among those at the same distance it is the first in the list. */
  lemma ClosestIdIsNearest(ids: seq<nat>, meshes: map<nat, Vec3>)
    ensures var c := ClosestId(ids, meshes);
      c.Some? ==> forall j :: 0 <= j < |ids| && ids[j] in meshes ==>
        SqLength(meshes[c.value]) <= SqLength(meshes[ids[j]])
    ensures var c := ClosestId(ids, meshes);
      c.Some? ==> forall j ::
        (0 <= j < |ids| && ids[j] in meshes && SqLength(meshes[ids[j]]) == SqLength(meshes[c.value]))
        ==> c.value in ids[..j + 1]
  {
    ClosestIndexIsNearest(ids, meshes, |ids|);
  }

  /** The `forEach` scan of `destroyAsteroid`: `closest` and `minDistance`
      start at "none" and "infinity" and are replaced by each strictly closer
      live asteroid that has a mesh. */
  method FindClosest(ids: seq<nat>, meshes: map<nat, Vec3>) returns (closest: Option<nat>)
    ensures closest == ClosestIndex(ids, meshes, |ids|)
    ensures closest.None? <==> forall j :: 0 <= j < |ids| ==> ids[j] !in meshes
    ensures closest.Some? ==> closest.value < |ids| && ids[closest.value] in meshes
    ensures closest.Some? ==> forall j :: 0 <= j < |ids| && ids[j] in meshes ==>
      SqLength(meshes[ids[closest.value]]) <= SqLength(meshes[ids[j]])
  {
    closest := None;
    var minDistance := 0.0;
    for i := 0 to |ids|
      invariant closest == ClosestIndex(ids, meshes, i)
      invariant closest.Some? ==> minDistance == SqLength(meshes[ids[closest.value]])
    {
      var id := ids[i];
      if id in meshes {
        var dist := SqLength(meshes[id]);
        if closest.None? || dist < minDistance {
          minDistance := dist;
          closest := Some(i);
        }
      }
    }
    ClosestIndexIsNearest(ids, meshes, |ids|);
  }

  /** `AsteroidField`: the live ids are its state; the meshes, and so the
      current positions, are what the renderer has mounted at the moment of
      the call. */
  class AsteroidField {
    var activeIds: seq<nat>

    ghost predicate Valid()
      reads this
    {
      NoDup(activeIds) && forall i :: 0 <= i < |activeIds| ==> activeIds[i] < FieldSize
    }

    constructor ()
      ensures Valid() && activeIds == InitialIds()
    {
      activeIds := InitialIds();
    }

    /** Destroys the live asteroid nearest the planet and returns a copy of its
        position, or returns `None` and changes nothing when no live id has a mesh. */
    method DestroyAsteroid(meshes: map<nat, Vec3>) returns (pos: Option<Vec3>)
      requires Valid()
      modifies this
      ensures Valid()
      ensures old(activeIds) == [] ==> pos.None?
      ensures var c := ClosestId(old(activeIds), meshes);
        && (c.None? ==> pos.None? && activeIds == old(activeIds))
        && (c.Some? ==> pos == Some(meshes[c.value])
                        && activeIds == Without(old(activeIds), c.value)
                        && |activeIds| == |old(activeIds)| - 1)
    {
      if |activeIds| == 0 {
        return None;
      }
      var k := FindClosest(activeIds, meshes);
      if k.None? {
        return None;
      }
      var closestId := activeIds[k.value];
      pos := Some(meshes[closestId]);
      WithoutChosen(activeIds, k.value);
      activeIds := Without(activeIds, closestId);
    }
  }

  /** Twenty shots at a freshly created field whose every live asteroid is
      mounted each destroy one asteroid, and the twenty-first finds nothing. */
  method ShootEveryAsteroid(positions: map<nat, Vec3>) returns (shots: seq<Option<Vec3>>)
    requires forall id: nat :: id < FieldSize ==> id in positions
    ensures |shots| == FieldSize + 1
    ensures forall i :: 0 <= i < FieldSize ==> shots[i].Some?
    ensures shots[FieldSize] == None
  {
    var field := new AsteroidField();
    shots := [];
    while |shots| < FieldSize + 1
      invariant fresh(field) && field.Valid()
      invariant |shots| <= FieldSize + 1
      invariant |shots| <= FieldSize ==> |field.activeIds| == FieldSize - |shots|
      invariant |shots| == FieldSize + 1 ==> shots[FieldSize] == None
      invariant forall i :: 0 <= i < |shots| && i < FieldSize ==> shots[i].Some?
      invariant forall i :: 0 <= i < |field.activeIds| ==> field.activeIds[i] in positions
      decreases FieldSize + 1 - |shots|
    {
      var ids := field.activeIds;
      var mounted := map id | id in positions && id in ids :: positions[id];
      assert ids != [] ==> ids[0] in mounted;
      var shot := field.DestroyAsteroid(mounted);
      assert forall i :: 0 <= i < |field.activeIds| ==> field.activeIds[i] in ids;
      shots := shots + [shot];
    }
  }

  /** Distance from the planet after one frame of the `Asteroid` update:
      a step of `Speed * delta` along the unit vector toward the origin (a
      zero vector normalizes to zero and stays put). */
  function Moved(d: real, delta: real): (r: real)
    requires 0.0 <= d && 0.0 <= delta
    ensures 0.0 <= r
    ensures d == 0.0 ==> r == 0.0
    ensures d > 0.0 && Speed * delta <= d ==> r == d - Speed * delta
    ensures 0.0 < d < Speed * delta ==> r == Speed * delta - d
  {
    if d == 0.0 then 0.0
    else if d >= Speed * delta then d - Speed * delta
    else Speed * delta - d
  }

  /** The loop-back rule: `position.setLength(15 + Math.random() * 5)` when the
      asteroid is closer than 2.5, with `u` standing for `Math.random()`.
      Rescaling a zero vector leaves it at zero. */
  function LoopBack(d: real, u: real): (r: real)
    requires 0.0 <= d && 0.0 <= u < 1.0
    ensures 0.0 < d < LoopBackDistance ==> r == RespawnBase + RespawnSpan * u
    ensures 0.0 < d < LoopBackDistance ==> RespawnBase <= r < RespawnBase + RespawnSpan
    ensures d >= LoopBackDistance ==> r == d
    ensures d == 0.0 ==> r == 0.0
  {
    if d < LoopBackDistance then
      (if d == 0.0 then 0.0 else RespawnBase + RespawnSpan * u)
    else d
  }

  /** One frame of one asteroid, seen on its distance only: move, then loop back. */
  function Advance(d: real, delta: real, u: real): (r: real)
    requires 0.0 <= d && 0.0 <= delta && 0.0 <= u < 1.0
    ensures r >= LoopBackDistance || r == 0.0
  {
    LoopBack(Moved(d, delta), u)
  }

  /** After a frame an asteroid is never left inside the loop-back radius
      (except in the degenerate case of a position exactly at the origin), and
      one that came inside it is back between 15 and 20. */
  lemma AdvanceKeepsDistance(d: real, delta: real, u: real)
    requires 0.0 <= d && 0.0 <= delta && 0.0 <= u < 1.0
    ensures Advance(d, delta, u) >= LoopBackDistance || Advance(d, delta, u) == 0.0
    ensures 0.0 < Moved(d, delta) < LoopBackDistance ==> 15.0 <= Advance(d, delta, u) < 20.0
    ensures Moved(d, delta) >= LoopBackDistance ==> Advance(d, delta, u) == Moved(d, delta)
  {
  }
}
