/** Kinematics (core/kinematics/index.js): the machine descriptor, the
    forward transform of a three-axis machine, and the per-axis feed clamp. */
module Kinematics {
  import opened Wrappers
  import opened Numbers
  import opened Vectors

  /** The limits of one axis; the core reads only its maximum velocity, in
      millimetres per second. */
  datatype AxisLimits = AxisLimits(maxVelocity: real)

  datatype Fixture = Fixture(name: string, aabb: Aabb)

  /** The machine descriptor as the core reads it. Optional members are the
      ones the source reads with a `??` default. `toolDiameter` is `None`
      when either the tool or its diameter is missing. */
  datatype Machine = Machine(
    axisX: AxisLimits,
    axisY: AxisLimits,
    axisZ: AxisLimits,
    tcp: Option<Vec3>,
    workOffsets: Option<map<string, Vec3>>,
    envelope: Aabb,
    fixtures: Option<seq<Fixture>>,
    toolDiameter: Option<real>)

  /** `forwardKinematics3Axis`: the tool-centre point of axis position
      `axes` under `workOffset`; a missing offset or machine TCP counts as
      zero. */
  function ForwardKinematics(m: Machine, axes: Vec3, workOffset: Option<Vec3>): (r: Vec3)
    ensures Sub(r, axes) == Add(workOffset.GetOr(Zero), m.tcp.GetOr(Zero))
    ensures m.tcp.None? && workOffset.None? ==> r == axes
  {
    var offset := workOffset.GetOr(Zero);
    var tcp := m.tcp.GetOr(Zero);
    Vec3(axes.x + offset.x + tcp.x, axes.y + offset.y + tcp.y, axes.z + offset.z + tcp.z)
  }

  /** Being a translation, the transform preserves every difference
      between positions. */
  lemma ForwardKinematicsIsTranslation(m: Machine, a: Vec3, b: Vec3, workOffset: Option<Vec3>)
    ensures Sub(ForwardKinematics(m, a, workOffset), ForwardKinematics(m, b, workOffset)) == Sub(a, b)
  {
  }

  /** Below this travel a move counts as degenerate. */
  const MinMoveDistance: real := 1.0e-9

  /** The speed, in mm/s along the path, that one axis allows: the path may
      go `maxVelocity * dist / d` when that axis covers `d` of it. An axis
      that does not move allows any speed (`None`). */
  function AxisCeiling(limits: AxisLimits, d: real, dist: real): Option<real>
    requires dist > 0.0
  {
    if d > 0.0 then Some(limits.maxVelocity * (dist / d)) else None
  }

  /** `Math.min` over the three candidates, `None` standing for infinity. */
  function MinCeiling(a: Option<real>, b: Option<real>): (r: Option<real>)
    ensures r.None? <==> a.None? && b.None?
    ensures a.Some? ==> r.Some? && r.value <= a.value
    ensures b.Some? ==> r.Some? && r.value <= b.value
    ensures r.Some? ==> (a.Some? && r.value == a.value) || (b.Some? && r.value == b.value)
  {
    match a
    case None => b
    case Some(x) =>
      match b
      case None => a
      case Some(y) => Some(Min(x, y))
  }

  /** The ceiling on path speed, in mm/s, that the three axes impose together. */
  function PathCeiling(m: Machine, dx: real, dy: real, dz: real, dist: real): Option<real>
    requires dist > 0.0
  {
    MinCeiling(MinCeiling(AxisCeiling(m.axisX, dx, dist), AxisCeiling(m.axisY, dy, dist)),
               AxisCeiling(m.axisZ, dz, dist))
  }

  /** The clamp itself, for a move of length `dist` whose absolute axis
      deltas are `dx`, `dy`, `dz`: the requested `desired` mm/min when no
      axis moves, otherwise the requested speed capped by the path ceiling,
      converted back to mm/min. */
  function ClampFeed(m: Machine, dx: real, dy: real, dz: real, dist: real, desired: real): real
    requires dist > 0.0
  {
    match PathCeiling(m, dx, dy, dz, dist)
    case None => desired
    case Some(c) => Min(desired / 60.0, c) * 60.0
  }

  /** `limitFeedByAxes`: the achievable feed, in mm/min, for a move from
      `from` to `to` requested at `desired` mm/min. */
  function LimitFeedByAxes(h: Length, from: Vec3, to: Vec3, desired: real, m: Machine): (r: real)
    ensures MoveDistance(h, from, to) < MinMoveDistance ==> r == 0.0
    ensures MoveDistance(h, from, to) >= MinMoveDistance ==> r <= desired
  {
    FeedForDeltas(h, AxisDeltas(from, to), desired, m)
  }

  /** The absolute axis deltas of a move. */
  function AxisDeltas(from: Vec3, to: Vec3): Vec3 {
    Vec3(Abs(to.x - from.x), Abs(to.y - from.y), Abs(to.z - from.z))
  }

  /** The body of `limitFeedByAxes` once the deltas `d` are known. */
  function FeedForDeltas(h: Length, d: Vec3, desired: real, m: Machine): real {
    var dist := h(d);
    if dist < MinMoveDistance then 0.0 else ClampFeed(m, d.x, d.y, d.z, dist, desired)
  }

  /** The travel distance `limitFeedByAxes` measures. */
  function MoveDistance(h: Length, from: Vec3, to: Vec3): real {
    h(Vec3(Abs(to.x - from.x), Abs(to.y - from.y), Abs(to.z - from.z)))
  }

  /** The path-speed ceiling, in mm/s, axis `limits` allows for a move that
      covers `d` of its `dist` on that axis, if it moves on that axis. */
  predicate WithinAxisCeiling(speed: real, limits: AxisLimits, d: real, dist: real)
    requires dist > 0.0
  {
    d > 0.0 ==> speed <= limits.maxVelocity * (dist / d)
  }

  /** A move shorter than the threshold, in particular a move that goes
      nowhere, gets feed zero. */
  lemma LimitFeedDegenerate(h: Hypot, from: Vec3, to: Vec3, desired: real, m: Machine)
    ensures MoveDistance(h, from, to) < MinMoveDistance ==> LimitFeedByAxes(h, from, to, desired, m) == 0.0
    ensures LimitFeedByAxes(h, from, from, desired, m) == 0.0
  {
    assert Vec3(Abs(from.x - from.x), Abs(from.y - from.y), Abs(from.z - from.z)) == Vec3(0.0, 0.0, 0.0);
    assert h(Vec3(0.0, 0.0, 0.0)) == Abs(0.0);
  }

  /** The path ceiling is the least of the moving axes' ceilings: it is at
      most each of them, and a speed is within it exactly when it is within
      all of them. */
  lemma PathCeilingIsLeast(m: Machine, dx: real, dy: real, dz: real, dist: real, s: real)
    requires dist > 0.0 && (dx > 0.0 || dy > 0.0 || dz > 0.0)
    ensures PathCeiling(m, dx, dy, dz, dist).Some?
    ensures (s <= PathCeiling(m, dx, dy, dz, dist).value)
              <==> (&& WithinAxisCeiling(s, m.axisX, dx, dist)
                    && WithinAxisCeiling(s, m.axisY, dy, dist)
                    && WithinAxisCeiling(s, m.axisZ, dz, dist))
  {
  }

  lemma ClampFeedBounded(m: Machine, dx: real, dy: real, dz: real, dist: real, desired: real)
    requires dist > 0.0 && (dx > 0.0 || dy > 0.0 || dz > 0.0)
    ensures ClampFeed(m, dx, dy, dz, dist, desired) <= desired
    ensures (ClampFeed(m, dx, dy, dz, dist, desired) == desired)
              <==> (&& WithinAxisCeiling(desired / 60.0, m.axisX, dx, dist)
                    && WithinAxisCeiling(desired / 60.0, m.axisY, dy, dist)
                    && WithinAxisCeiling(desired / 60.0, m.axisZ, dz, dist))
  {
    PathCeilingIsLeast(m, dx, dy, dz, dist, desired / 60.0);
  }

  /** For a real move the result never exceeds the requested feed, and it
      equals the requested feed exactly when the requested speed (per
      second) is within every moving axis's ceiling. */
  lemma LimitFeedBounded(h: Hypot, from: Vec3, to: Vec3, desired: real, m: Machine)
    requires MoveDistance(h, from, to) >= MinMoveDistance
    ensures LimitFeedByAxes(h, from, to, desired, m) <= desired
    ensures var dist := MoveDistance(h, from, to);
            (LimitFeedByAxes(h, from, to, desired, m) == desired)
              <==> (&& WithinAxisCeiling(desired / 60.0, m.axisX, Abs(to.x - from.x), dist)
                    && WithinAxisCeiling(desired / 60.0, m.axisY, Abs(to.y - from.y), dist)
                    && WithinAxisCeiling(desired / 60.0, m.axisZ, Abs(to.z - from.z), dist))
  {
    var dx, dy, dz := Abs(to.x - from.x), Abs(to.y - from.y), Abs(to.z - from.z);
    LimitFeedIsClamp(h, from, to, desired, m);
    ClampFeedBounded(m, dx, dy, dz, MoveDistance(h, from, to), desired);
  }

  /** A move whose travel is not zero moves at least one axis. */
  lemma SomeAxisMoves(h: Hypot, dx: real, dy: real, dz: real)
    requires h(Vec3(dx, dy, dz)) >= MinMoveDistance
    ensures dx != 0.0 || dy != 0.0 || dz != 0.0
  {
  }

  /** Within an axis's ceiling, that axis's share of the path speed,
      `speed * d / dist`, is at most its maximum velocity. */
  lemma WithinAxisCeilingScales(speed: real, limits: AxisLimits, d: real, dist: real)
    requires dist > 0.0
    requires WithinAxisCeiling(speed, limits, d, dist)
    ensures AxisShareWithin(speed, limits, d, dist)
  {
    if d > 0.0 {
      var k := d / dist;
      assert k > 0.0;
      assert speed * k <= limits.maxVelocity * (dist / d) * k;
      assert (dist / d) * k == 1.0;
      assert speed * d / dist == speed * k;
    }
  }

  /** The clamped speed, in mm/s, is within every axis's ceiling. */
  lemma ClampFeedWithinCeilings(m: Machine, dx: real, dy: real, dz: real, dist: real, desired: real)
    requires dist > 0.0 && (dx > 0.0 || dy > 0.0 || dz > 0.0)
    ensures var f := ClampFeed(m, dx, dy, dz, dist, desired) / 60.0;
            && WithinAxisCeiling(f, m.axisX, dx, dist)
            && WithinAxisCeiling(f, m.axisY, dy, dist)
            && WithinAxisCeiling(f, m.axisZ, dz, dist)
  {
    var c := PathCeiling(m, dx, dy, dz, dist);
    var f := ClampFeed(m, dx, dy, dz, dist, desired) / 60.0;
    assert f == Min(desired / 60.0, c.value);
    PathCeilingIsLeast(m, dx, dy, dz, dist, f);
  }

  /** Past the degenerate threshold the feed is the clamp of the measured
      move. */
  lemma LimitFeedIsClamp(h: Hypot, from: Vec3, to: Vec3, desired: real, m: Machine)
    requires MoveDistance(h, from, to) >= MinMoveDistance
    ensures var dx, dy, dz := Abs(to.x - from.x), Abs(to.y - from.y), Abs(to.z - from.z);
            && (dx > 0.0 || dy > 0.0 || dz > 0.0)
            && LimitFeedByAxes(h, from, to, desired, m)
               == ClampFeed(m, dx, dy, dz, MoveDistance(h, from, to), desired)
  {
    SomeAxisMoves(h, Abs(to.x - from.x), Abs(to.y - from.y), Abs(to.z - from.z));
  }

  /** No moving axis is asked to exceed its maximum velocity: the share of
      the path speed `speed` (mm/s) along each moving axis, `speed * d/dist`,
      is at most that axis's maximum velocity. An axis that does not move
      imposes no limit. */
  predicate RespectsAxes(speed: real, m: Machine, dx: real, dy: real, dz: real, dist: real)
    requires dist > 0.0
  {
    && AxisShareWithin(speed, m.axisX, dx, dist)
    && AxisShareWithin(speed, m.axisY, dy, dist)
    && AxisShareWithin(speed, m.axisZ, dz, dist)
  }

  /** The share of path speed `speed` along an axis covering `d` of `dist`
      is within that axis's maximum velocity, if the axis moves. */
  predicate AxisShareWithin(speed: real, limits: AxisLimits, d: real, dist: real)
    requires dist > 0.0
  {
    d > 0.0 ==> speed * d / dist <= limits.maxVelocity
  }

  lemma ClampFeedRespectsAxes(m: Machine, dx: real, dy: real, dz: real, dist: real, desired: real)
    requires dist > 0.0 && (dx > 0.0 || dy > 0.0 || dz > 0.0)
    ensures RespectsAxes(ClampFeed(m, dx, dy, dz, dist, desired) / 60.0, m, dx, dy, dz, dist)
  {
    var f := ClampFeed(m, dx, dy, dz, dist, desired) / 60.0;
    ClampFeedWithinCeilings(m, dx, dy, dz, dist, desired);
    WithinAxisCeilingScales(f, m.axisX, dx, dist);
    WithinAxisCeilingScales(f, m.axisY, dy, dist);
    WithinAxisCeilingScales(f, m.axisZ, dz, dist);
  }

  /** The feed `limitFeedByAxes` returns for a real move respects every
      axis's maximum velocity. */
  lemma LimitFeedRespectsAxes(h: Hypot, from: Vec3, to: Vec3, desired: real, m: Machine)
    requires MoveDistance(h, from, to) >= MinMoveDistance
    ensures RespectsAxes(LimitFeedByAxes(h, from, to, desired, m) / 60.0, m,
                         Abs(to.x - from.x), Abs(to.y - from.y), Abs(to.z - from.z),
                         MoveDistance(h, from, to))
  {
    LimitFeedIsClamp(h, from, to, desired, m);
    ClampFeedRespectsAxes(m, Abs(to.x - from.x), Abs(to.y - from.y), Abs(to.z - from.z),
                          MoveDistance(h, from, to), desired);
  }

  /** A move along X alone is clamped by the X axis alone. */
  lemma ClampSingleAxis(m: Machine, d: real, desired: real)
    requires d > 0.0
    ensures ClampFeed(m, d, 0.0, 0.0, d, desired) == Min(desired / 60.0, m.axisX.maxVelocity) * 60.0
  {
    assert d / d == 1.0;
    assert m.axisX.maxVelocity * (d / d) == m.axisX.maxVelocity;
    assert AxisCeiling(m.axisX, d, d) == Some(m.axisX.maxVelocity);
  }

  /** For a real move along the X axis only, the feed is the requested feed
      capped at the X axis's maximum velocity (times 60); the other axes'
      limits play no part. */
  lemma LimitFeedSingleAxis(h: Hypot, from: Vec3, to: Vec3, desired: real, m: Machine)
    requires to.y == from.y && to.z == from.z && Abs(to.x - from.x) >= MinMoveDistance
    ensures MoveDistance(h, from, to) == Abs(to.x - from.x)
    ensures LimitFeedByAxes(h, from, to, desired, m) == Min(desired / 60.0, m.axisX.maxVelocity) * 60.0
  {
    var d := Abs(to.x - from.x);
    assert Vec3(d, Abs(to.y - from.y), Abs(to.z - from.z)) == Vec3(d, 0.0, 0.0);
    assert h(Vec3(d, 0.0, 0.0)) == Abs(d);
    ClampSingleAxis(m, d, desired);
  }

  /** Only absolute axis deltas enter the computation, so reversing a move
      does not change its feed. */
  lemma LimitFeedSymmetric(h: Hypot, from: Vec3, to: Vec3, desired: real, m: Machine)
    ensures LimitFeedByAxes(h, from, to, desired, m) == LimitFeedByAxes(h, to, from, desired, m)
  {
    assert AxisDeltas(to, from) == AxisDeltas(from, to);
  }
}
