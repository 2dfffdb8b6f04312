/** The motion planner (core/motion_planner/index.js): turns the interpreter's
    motion commands into a timeline of evenly spaced, time-stamped samples of
    axis and tool-centre positions. */
module MotionPlanner {
  import opened Wrappers
  import opened Numbers
  import opened Vectors
  import opened ModalState
  import opened Interpreter
  import opened Kinematics

  /** One point of the timeline. */
  datatype Sample = Sample(
    t: real,
    blockIndex: nat,
    lineNumber: nat,
    position: Vec3,
    axes: Vec3,
    feed: real,
    spindleRpm: real,
    spindleMode: SpindleMode,
    motionMode: MotionMode)

  /** The sampling period used when the caller gives none, in seconds. */
  const DefaultDt: real := 0.005

  /** Below this speed, in mm/s, the duration computation uses this instead. */
  const MinSpeed: real := 1.0e-9

  /** A motion the planner samples: a motion command that goes somewhere. */
  predicate Travels(h: Length, c: Command) {
    c.Motion? && Dist(h, c.from, c.to) >= MinMoveDistance
  }

  /** The G0 feed: the slowest axis's maximum velocity, in mm/min. */
  function RapidFeed(m: Machine): (r: real)
    ensures r <= m.axisX.maxVelocity * 60.0
    ensures r <= m.axisY.maxVelocity * 60.0
    ensures r <= m.axisZ.maxVelocity * 60.0
    ensures r == m.axisX.maxVelocity * 60.0 || r == m.axisY.maxVelocity * 60.0 || r == m.axisZ.maxVelocity * 60.0
  {
    Min(Min(m.axisX.maxVelocity, m.axisY.maxVelocity), m.axisZ.maxVelocity) * 60.0
  }

  /** The feed a motion runs at, in mm/min: the rapid feed for G0, otherwise
      the programmed feed (at least 1) clamped by the axes. */
  function MoveFeed(h: Length, m: Machine, c: Command): real
    requires c.Motion?
  {
    if c.mode == Rapid then RapidFeed(m)
    else LimitFeedByAxes(h, c.from, c.to, Max(1.0, c.feed), m)
  }

  /** How long a motion takes, in seconds: its length over its speed, the
      speed floored at `MinSpeed`. */
  function MoveDuration(h: Length, m: Machine, c: Command): (r: real)
    requires Travels(h, c)
    ensures r > 0.0
  {
    Dist(h, c.from, c.to) / Max(MoveFeed(h, m, c) / 60.0, MinSpeed)
  }

  /** `max(1, ceil(duration / dt))`: the fewest samples, at least one, whose
      spacing is at most `dt`. */
  function StepCount(duration: real, dt: real): (r: nat)
    requires dt != 0.0
    ensures r >= 1
    ensures duration / dt <= r as real
    ensures duration / dt > 0.0 ==> (r as real) < duration / dt + 1.0
    ensures duration / dt <= 1.0 ==> r == 1
  {
    MaxInt(1, Ceil(duration / dt))
  }

  /** The work offset a motion names, looked up in the machine's table (a
      table holding only a zero G54 when the machine has none); an unknown
      name means no offset. */
  function OffsetFor(m: Machine, name: string): (r: Vec3)
    ensures m.workOffsets.None? ==> r == Zero
    ensures m.workOffsets.Some? && name in m.workOffsets.value ==> r == m.workOffsets.value[name]
    ensures m.workOffsets.Some? && name !in m.workOffsets.value ==> r == Zero
  {
    var table := m.workOffsets.GetOr(map[DefaultWorkOffset := Zero]);
    if name in table then table[name] else Zero
  }

  /** The samples `i..steps` of motion `c`: sample `i` sits at `i/steps` of
      the way along the move and one `period` after `time`, the time of the
      sample before it. */
  function SamplesFrom(m: Machine, c: Command, offset: Vec3, feed: real, period: real,
                       steps: nat, i: nat, time: real): seq<Sample>
    requires c.Motion? && 1 <= i <= steps + 1
    decreases steps + 1 - i
  {
    if i > steps then []
    else
      var axes := Lerp(c.from, c.to, i as real / steps as real);
      var t := time + period;
      [Sample(t, c.blockIndex, c.lineNumber, ForwardKinematics(m, axes, Some(offset)), axes,
              feed, c.spindleRpm, c.spindleMode, c.mode)]
      + SamplesFrom(m, c, offset, feed, period, steps, i + 1, t)
  }

  /** The samples of one travelling motion, starting after `time`: `steps`
      of them, one period `duration / steps` apart. */
  function MoveSamples(h: Length, m: Machine, c: Command, dt: real, time: real): seq<Sample>
    requires dt != 0.0 && Travels(h, c)
  {
    var duration := MoveDuration(h, m, c);
    var steps := StepCount(duration, dt);
    SamplesFrom(m, c, OffsetFor(m, c.workOffset), MoveFeed(h, m, c), duration / steps as real,
                steps, 1, time)
  }

  /** The timeline of `cmds` with the time cursor at `time`. Each motion
      leaves the cursor at its last sample's time, which in exact arithmetic
      is `time` plus the motion's duration (`MoveSamplesShape`). */
  function PlanFrom(h: Length, m: Machine, cmds: seq<Command>, dt: real, time: real): seq<Sample>
    requires dt != 0.0
    decreases |cmds|
  {
    if cmds == [] then []
    else if !Travels(h, cmds[0]) then PlanFrom(h, m, cmds[1..], dt, time)
    else MoveSamples(h, m, cmds[0], dt, time)
         + PlanFrom(h, m, cmds[1..], dt, time + MoveDuration(h, m, cmds[0]))
  }

  /** `planTrajectory`, with `dt` defaulting to 5 ms. The timeline has one
      sample per step of every travelling motion, its first timestamp is
      above zero, timestamps strictly increase, and the last is at most the
      total planned time. */
  function PlanTrajectory(h: Length, m: Machine, cmds: seq<Command>, dt: Option<real>): (r: seq<Sample>)
    requires dt.GetOr(DefaultDt) != 0.0
    ensures |r| == TotalSamples(h, m, cmds, dt.GetOr(DefaultDt))
    ensures Increasing(r) && After(r, 0.0) && NotAfter(r, TotalTime(h, m, cmds))
  {
    PlanCount(h, m, cmds, dt.GetOr(DefaultDt), 0.0);
    PlanTimed(h, m, cmds, dt.GetOr(DefaultDt), 0.0);
    PlanFrom(h, m, cmds, dt.GetOr(DefaultDt), 0.0)
  }

  /** The number of samples a motion yields (zero for a command that is not
      sampled). */
  function SampleCount(h: Length, m: Machine, c: Command, dt: real): nat
    requires dt != 0.0
  {
    if Travels(h, c) then StepCount(MoveDuration(h, m, c), dt) else 0
  }

  /** How far a command moves the time cursor. */
  function TimeAdvance(h: Length, m: Machine, c: Command): real {
    if Travels(h, c) then MoveDuration(h, m, c) else 0.0
  }

  // ---------------------------------------------------------------------
  // One motion

  /** `SamplesFrom` yields one sample per remaining step. */
  lemma {:induction false} SamplesFromCount(m: Machine, c: Command, offset: Vec3, feed: real, period: real,
                                            steps: nat, i: nat, time: real)
    requires c.Motion? && 1 <= i <= steps + 1
    ensures |SamplesFrom(m, c, offset, feed, period, steps, i, time)| == steps + 1 - i
    decreases steps + 1 - i
  {
    if i <= steps {
      SamplesFromCount(m, c, offset, feed, period, steps, i + 1, time + period);
    }
  }

  /** Sample `k` comes `k + 1` periods after `time`. */
  predicate Spaced(r: seq<Sample>, time: real, period: real) {
    forall k :: 0 <= k < |r| ==> r[k].t == time + (k + 1) as real * period
  }

  /** Sample `k` is point `first + k` of `steps` along motion `c`: its axes
      lie `(first+k)/steps` of the way from `from` to `to`, its position is
      the forward transform of its axes under `offset`, and it carries
      `feed` and the command's block, line, spindle and mode. */
  predicate Along(r: seq<Sample>, m: Machine, c: Command, offset: Vec3, feed: real, first: nat, steps: nat)
    requires c.Motion? && steps >= 1
  {
    forall k :: 0 <= k < |r| ==>
      && r[k].axes == Lerp(c.from, c.to, (first + k) as real / steps as real)
      && r[k].position == ForwardKinematics(m, r[k].axes, Some(offset))
      && r[k].feed == feed
      && r[k].blockIndex == c.blockIndex && r[k].lineNumber == c.lineNumber
      && r[k].spindleRpm == c.spindleRpm && r[k].spindleMode == c.spindleMode
      && r[k].motionMode == c.mode
  }

  lemma {:induction false} SamplesFromTimes(m: Machine, c: Command, offset: Vec3, feed: real, period: real,
                                            steps: nat, i: nat, time: real)
    requires c.Motion? && 1 <= i <= steps + 1
    ensures Spaced(SamplesFrom(m, c, offset, feed, period, steps, i, time), time, period)
    decreases steps + 1 - i
  {
    var r := SamplesFrom(m, c, offset, feed, period, steps, i, time);
    if i <= steps {
      var rest := SamplesFrom(m, c, offset, feed, period, steps, i + 1, time + period);
      SamplesFromTimes(m, c, offset, feed, period, steps, i + 1, time + period);
      assert r == [r[0]] + rest;
      forall k | 1 <= k < |r|
        ensures r[k].t == time + (k + 1) as real * period
      {
        assert r[k] == rest[k - 1];
        assert rest[k - 1].t == (time + period) + ((k - 1) + 1) as real * period;
        assert ((k - 1) + 1) as real * period + period == (k + 1) as real * period;
      }
    }
  }

  lemma {:induction false} SamplesFromPoints(m: Machine, c: Command, offset: Vec3, feed: real, period: real,
                                             steps: nat, i: nat, time: real)
    requires c.Motion? && 1 <= i <= steps + 1 && steps >= 1
    ensures Along(SamplesFrom(m, c, offset, feed, period, steps, i, time), m, c, offset, feed, i, steps)
    decreases steps + 1 - i
  {
    var r := SamplesFrom(m, c, offset, feed, period, steps, i, time);
    if i <= steps {
      var rest := SamplesFrom(m, c, offset, feed, period, steps, i + 1, time + period);
      SamplesFromPoints(m, c, offset, feed, period, steps, i + 1, time + period);
      assert r == [r[0]] + rest;
      forall k | 1 <= k < |r|
        ensures r[k].axes == Lerp(c.from, c.to, (i + k) as real / steps as real)
      {
        assert r[k] == rest[k - 1];
        assert rest[k - 1].axes == Lerp(c.from, c.to, ((i + 1) + (k - 1)) as real / steps as real);
        assert (i + 1) + (k - 1) == i + k;
      }
    }
  }

  /** `steps` samples spaced `duration / steps` apart end `duration` after
      the cursor, and the last lands on `to`. */
  lemma SamplesWhole(m: Machine, c: Command, offset: Vec3, feed: real, duration: real, steps: nat, time: real)
    requires c.Motion? && steps >= 1
    ensures |SamplesFrom(m, c, offset, feed, duration / steps as real, steps, 1, time)| == steps
    ensures SamplesFrom(m, c, offset, feed, duration / steps as real, steps, 1, time)[steps - 1].t == time + duration
    ensures SamplesFrom(m, c, offset, feed, duration / steps as real, steps, 1, time)[steps - 1].axes == c.to
  {
    var p := duration / steps as real;
    var r := SamplesFrom(m, c, offset, feed, p, steps, 1, time);
    SamplesFromCount(m, c, offset, feed, p, steps, 1, time);
    SamplesFromTimes(m, c, offset, feed, p, steps, 1, time);
    SamplesFromPoints(m, c, offset, feed, p, steps, 1, time);
    assert r[steps - 1].axes == Lerp(c.from, c.to, (1 + (steps - 1)) as real / steps as real);
    assert (1 + (steps - 1)) as real / steps as real == 1.0;
    assert r[steps - 1].t == time + ((steps - 1) + 1) as real * p;
    PartsMakeWhole(duration, steps);
  }

  /** A travelling motion yields `StepCount(duration, dt)` samples. Sample
      `k` has axes `from + u (to - from)` with `u = (k+1)/steps`, so the
      last lands exactly on `to`; its time is `k + 1` periods of
      `duration/steps` after the cursor, so the last is at the cursor plus
      the move's duration; its position is the forward transform under the
      named work offset; and it carries the command's feed, block, line,
      spindle and mode. */
  lemma MoveSamplesShape(h: Length, m: Machine, c: Command, dt: real, time: real)
    requires dt != 0.0 && Travels(h, c)
    ensures |MoveSamples(h, m, c, dt, time)| == StepCount(MoveDuration(h, m, c), dt)
    ensures Last(MoveSamples(h, m, c, dt, time)).axes == c.to
    ensures Last(MoveSamples(h, m, c, dt, time)).t == time + MoveDuration(h, m, c)
    ensures Spaced(MoveSamples(h, m, c, dt, time), time,
                   MoveDuration(h, m, c) / StepCount(MoveDuration(h, m, c), dt) as real)
    ensures Along(MoveSamples(h, m, c, dt, time), m, c, OffsetFor(m, c.workOffset), MoveFeed(h, m, c),
                  1, StepCount(MoveDuration(h, m, c), dt))
  {
    var duration := MoveDuration(h, m, c);
    var steps := StepCount(duration, dt);
    var offset, feed := OffsetFor(m, c.workOffset), MoveFeed(h, m, c);
    SamplesWhole(m, c, offset, feed, duration, steps, time);
    SamplesFromTimes(m, c, offset, feed, duration / steps as real, steps, 1, time);
    SamplesFromPoints(m, c, offset, feed, duration / steps as real, steps, 1, time);
  }

  function Last(r: seq<Sample>): Sample
    requires r != []
  {
    r[|r| - 1]
  }

  /** Samples spaced by a positive period are strictly later than the
      cursor, strictly increasing, and none is later than `|r|` periods
      after the cursor. */
  lemma SpacedTimed(r: seq<Sample>, time: real, period: real)
    requires period > 0.0 && Spaced(r, time, period)
    ensures Increasing(r) && After(r, time) && NotAfter(r, time + |r| as real * period)
  {
    forall i, j | 0 <= i < j < |r| ensures r[i].t < r[j].t {
      assert r[i].t == time + (i + 1) as real * period;
      assert r[j].t == time + (j + 1) as real * period;
      MoreSteps(period, i + 1, j + 1);
    }
    forall i | 0 <= i < |r| ensures time < r[i].t <= time + |r| as real * period {
      assert r[i].t == time + (i + 1) as real * period;
      MoreSteps(period, 0, i + 1);
      MoreSteps(period, i + 1, |r|);
    }
  }

  /** `n` equal parts of `d` make up `d`. */
  lemma PartsMakeWhole(d: real, n: nat)
    requires n >= 1
    ensures n as real * (d / n as real) == d
    ensures d > 0.0 ==> d / n as real > 0.0
  {
  }

  /** The samples of a motion are strictly later than the cursor, strictly
      increasing, and none later than the cursor plus the duration. */
  lemma MoveSamplesTimed(h: Length, m: Machine, c: Command, dt: real, time: real)
    requires dt != 0.0 && Travels(h, c)
    ensures Increasing(MoveSamples(h, m, c, dt, time))
    ensures After(MoveSamples(h, m, c, dt, time), time)
    ensures NotAfter(MoveSamples(h, m, c, dt, time), time + MoveDuration(h, m, c))
  {
    var duration := MoveDuration(h, m, c);
    var steps := StepCount(duration, dt);
    PartsMakeWhole(duration, steps);
    MoveSamplesShape(h, m, c, dt, time);
    SpacedTimed(MoveSamples(h, m, c, dt, time), time, duration / steps as real);
  }

  /** More periods take longer. */
  lemma MoreSteps(p: real, a: nat, b: nat)
    requires p > 0.0 && a <= b
    ensures a as real * p <= b as real * p
    ensures a < b ==> a as real * p < b as real * p
  {
    assert b as real * p - a as real * p == (b - a) as real * p;
  }

  // ---------------------------------------------------------------------
  // The timeline

  predicate Increasing(s: seq<Sample>) {
    forall i, j :: 0 <= i < j < |s| ==> s[i].t < s[j].t
  }

  predicate After(s: seq<Sample>, time: real) {
    forall i :: 0 <= i < |s| ==> s[i].t > time
  }

  predicate NotAfter(s: seq<Sample>, time: real) {
    forall i :: 0 <= i < |s| ==> s[i].t <= time
  }

  /** The total time `cmds` advance the cursor by. */
  function TotalTime(h: Length, m: Machine, cmds: seq<Command>): (r: real)
    ensures r >= 0.0
  {
    if cmds == [] then 0.0 else TimeAdvance(h, m, cmds[0]) + TotalTime(h, m, cmds[1..])
  }

  /** The total number of samples `cmds` yield. */
  function TotalSamples(h: Length, m: Machine, cmds: seq<Command>, dt: real): nat
    requires dt != 0.0
  {
    if cmds == [] then 0 else SampleCount(h, m, cmds[0], dt) + TotalSamples(h, m, cmds[1..], dt)
  }

  /** A command that is not a travelling motion, whether a tool change, a
      snapshot or a motion shorter than the threshold, adds no samples and
      leaves the time cursor where it was. */
  lemma NonTravelSkipped(h: Length, m: Machine, c: Command, rest: seq<Command>, dt: real, time: real)
    requires dt != 0.0 && !Travels(h, c)
    ensures PlanFrom(h, m, [c] + rest, dt, time) == PlanFrom(h, m, rest, dt, time)
    ensures SampleCount(h, m, c, dt) == 0 && TimeAdvance(h, m, c) == 0.0
  {
    assert ([c] + rest)[1..] == rest;
  }

  /** Planning a concatenation plans the first part, then the second with
      the cursor advanced by the first part's total time: commands are
      planned in order and each advances time by exactly its duration. */
  lemma {:induction false} PlanAppend(h: Length, m: Machine, a: seq<Command>, b: seq<Command>, dt: real, time: real)
    requires dt != 0.0
    ensures PlanFrom(h, m, a + b, dt, time)
            == PlanFrom(h, m, a, dt, time) + PlanFrom(h, m, b, dt, time + TotalTime(h, m, a))
    decreases |a|
  {
    if a == [] {
      assert a + b == b;
    } else {
      assert (a + b)[0] == a[0];
      assert (a + b)[1..] == a[1..] + b;
      var adv := TimeAdvance(h, m, a[0]);
      PlanAppend(h, m, a[1..], b, dt, time + adv);
      assert time + adv + TotalTime(h, m, a[1..]) == time + TotalTime(h, m, a);
      if Travels(h, a[0]) {
        var s := MoveSamples(h, m, a[0], dt, time);
        assert PlanFrom(h, m, a + b, dt, time)
               == s + (PlanFrom(h, m, a[1..], dt, time + adv) + PlanFrom(h, m, b, dt, time + TotalTime(h, m, a)));
        assert PlanFrom(h, m, a, dt, time) == s + PlanFrom(h, m, a[1..], dt, time + adv);
      }
    }
  }

  /** The timeline has one sample per step of every travelling motion. */
  lemma {:induction false} PlanCount(h: Length, m: Machine, cmds: seq<Command>, dt: real, time: real)
    requires dt != 0.0
    ensures |PlanFrom(h, m, cmds, dt, time)| == TotalSamples(h, m, cmds, dt)
    decreases |cmds|
  {
    if cmds != [] {
      PlanCount(h, m, cmds[1..], dt, time + TimeAdvance(h, m, cmds[0]));
      if Travels(h, cmds[0]) {
        MoveSamplesShape(h, m, cmds[0], dt, time);
      }
    }
  }

  /** Timestamps strictly increase, all lie after the starting cursor, and
      none lies beyond the cursor plus the total time. */
  lemma {:induction false} PlanTimed(h: Length, m: Machine, cmds: seq<Command>, dt: real, time: real)
    requires dt != 0.0
    ensures var p := PlanFrom(h, m, cmds, dt, time);
            Increasing(p) && After(p, time) && NotAfter(p, time + TotalTime(h, m, cmds))
    decreases |cmds|
  {
    if cmds != [] {
      var c, tail := cmds[0], cmds[1..];
      var adv := TimeAdvance(h, m, c);
      var rest := PlanFrom(h, m, tail, dt, time + adv);
      PlanTimed(h, m, tail, dt, time + adv);
      if Travels(h, c) {
        var s := MoveSamples(h, m, c, dt, time);
        MoveSamplesTimed(h, m, c, dt, time);
        ConcatTimed(s, rest, time, time + adv, time + TotalTime(h, m, cmds));
      }
    }
  }

  /** Two timed runs, the second starting where the first may end, join
      into one timed run. */
  lemma ConcatTimed(s: seq<Sample>, rest: seq<Sample>, time: real, mid: real, end: real)
    requires Increasing(s) && After(s, time) && NotAfter(s, mid)
    requires Increasing(rest) && After(rest, mid) && NotAfter(rest, end)
    requires time <= mid <= end
    ensures Increasing(s + rest) && After(s + rest, time) && NotAfter(s + rest, end)
  {
    var p := s + rest;
    forall i, j | 0 <= i < j < |p| ensures p[i].t < p[j].t {
      if j < |s| {
        assert p[i] == s[i] && p[j] == s[j];
      } else if i < |s| {
        assert p[i] == s[i] && p[j] == rest[j - |s|];
      } else {
        assert p[i] == rest[i - |s|] && p[j] == rest[j - |s|];
      }
    }
    forall i | 0 <= i < |p| ensures time < p[i].t <= end {
      if i < |s| {
        assert p[i] == s[i];
      } else {
        assert p[i] == rest[i - |s|];
      }
    }
  }

  /** G0 runs at the rapid feed; any other motion asks for at least 1
      mm/min and never runs faster than it asked. */
  lemma MoveFeedBounds(h: Hypot, m: Machine, c: Command)
    requires Travels(h, c)
    ensures c.mode == Rapid ==> MoveFeed(h, m, c) == RapidFeed(m)
    ensures c.mode != Rapid ==> MoveFeed(h, m, c) <= Max(1.0, c.feed)
  {
    if c.mode != Rapid {
      assert MoveDistance(h, c.from, c.to) == Dist(h, c.from, c.to) by {
        assert AbsVec(Sub(c.to, c.from)) == Vec3(Abs(c.to.x - c.from.x), Abs(c.to.y - c.from.y), Abs(c.to.z - c.from.z));
      }
      LimitFeedBounded(h, c.from, c.to, Max(1.0, c.feed), m);
    }
  }

  // ---------------------------------------------------------------------
  // The timing example: a 60 mm G1 move along X at 600 mm/min, every axis
  // allowing 200 mm/s, sampled every 10 ms, takes 600 samples and ends at
  // exactly 6 s.

  lemma ExampleTravel(h: Hypot, m: Machine, c: Command)
    requires m.axisX.maxVelocity == 200.0 && m.axisY.maxVelocity == 200.0 && m.axisZ.maxVelocity == 200.0
    requires c.Motion? && c.mode == Linear && c.feed == 600.0
    requires c.from.x == 0.0 && c.from.y == 0.0 && c.from.z == 0.0
    requires c.to.x == 60.0 && c.to.y == 0.0 && c.to.z == 0.0
    ensures Travels(h, c) && Dist(h, c.from, c.to) == 60.0
  {
    SixtyAlongX(h, c.from, c.to);
  }

  /** The test's endpoints are 60 apart. */
  lemma SixtyAlongX(h: Hypot, a: Vec3, b: Vec3)
    requires a.x == 0.0 && a.y == 0.0 && a.z == 0.0
    requires b.x == 60.0 && b.y == 0.0 && b.z == 0.0
    ensures Dist(h, a, b) == 60.0
  {
    DistAlongX(h, a, b);
  }

  lemma ExampleFeed(h: Hypot, m: Machine, c: Command)
    requires m.axisX.maxVelocity == 200.0 && m.axisY.maxVelocity == 200.0 && m.axisZ.maxVelocity == 200.0
    requires c.Motion? && c.mode == Linear && c.feed == 600.0
    requires c.from.x == 0.0 && c.from.y == 0.0 && c.from.z == 0.0
    requires c.to.x == 60.0 && c.to.y == 0.0 && c.to.z == 0.0
    ensures MoveFeed(h, m, c) == 600.0
  {
    assert Abs(c.to.x - c.from.x) == 60.0;
    LimitFeedSingleAxis(h, c.from, c.to, Max(1.0, c.feed), m);
  }

  /** A program of one travelling motion plans exactly that motion's
      samples: their count is the motion's step count, and the last lands
      on the target at the motion's duration. */
  lemma SingleMovePlan(h: Length, m: Machine, c: Command, dt: real)
    requires dt != 0.0 && Travels(h, c)
    ensures PlanTrajectory(h, m, [c], Some(dt)) == MoveSamples(h, m, c, dt, 0.0)
    ensures |PlanTrajectory(h, m, [c], Some(dt))| == StepCount(MoveDuration(h, m, c), dt)
    ensures Last(PlanTrajectory(h, m, [c], Some(dt))).t == MoveDuration(h, m, c)
    ensures Last(PlanTrajectory(h, m, [c], Some(dt))).axes == c.to
  {
    var cmds := [c];
    var r := MoveSamples(h, m, c, dt, 0.0);
    assert cmds[0] == c && cmds[1..] == [];
    assert PlanFrom(h, m, cmds[1..], dt, MoveDuration(h, m, c)) == [];
    assert PlanFrom(h, m, cmds, dt, 0.0) == r + [];
    assert r + [] == r;
    MoveSamplesShape(h, m, c, dt, 0.0);
  }

  /** 60 mm at 10 mm/s: the move takes 6 s. */
  lemma ExampleDuration(h: Hypot, m: Machine, c: Command)
    requires m.axisX.maxVelocity == 200.0 && m.axisY.maxVelocity == 200.0 && m.axisZ.maxVelocity == 200.0
    requires c.Motion? && c.mode == Linear && c.feed == 600.0
    requires c.from.x == 0.0 && c.from.y == 0.0 && c.from.z == 0.0
    requires c.to.x == 60.0 && c.to.y == 0.0 && c.to.z == 0.0
    ensures Travels(h, c) && MoveDuration(h, m, c) == 6.0
  {
    ExampleTravel(h, m, c);
    ExampleFeed(h, m, c);
    DurationNumbers(Dist(h, c.from, c.to), MoveFeed(h, m, c));
  }

  lemma TimingExample(h: Hypot, m: Machine, c: Command, dt: real)
    requires m.axisX.maxVelocity == 200.0 && m.axisY.maxVelocity == 200.0 && m.axisZ.maxVelocity == 200.0
    requires c.Motion? && c.mode == Linear && c.feed == 600.0
    requires c.from.x == 0.0 && c.from.y == 0.0 && c.from.z == 0.0
    requires c.to.x == 60.0 && c.to.y == 0.0 && c.to.z == 0.0
    requires dt == 0.01
    ensures |PlanTrajectory(h, m, [c], Some(dt))| == 600
    ensures Last(PlanTrajectory(h, m, [c], Some(dt))).t == 6.0
    ensures Last(PlanTrajectory(h, m, [c], Some(dt))).axes == Vec3(60.0, 0.0, 0.0)
  {
    ExampleDuration(h, m, c);
    SixSecondPlan(h, m, c, dt);
  }

  /** Any travelling motion that takes 6 s, sampled every 10 ms. */
  lemma SixSecondPlan(h: Length, m: Machine, c: Command, dt: real)
    requires Travels(h, c) && MoveDuration(h, m, c) == 6.0 && dt == 0.01
    ensures |PlanTrajectory(h, m, [c], Some(dt))| == 600
    ensures Last(PlanTrajectory(h, m, [c], Some(dt))).t == 6.0
    ensures Last(PlanTrajectory(h, m, [c], Some(dt))).axes == c.to
  {
    SingleMovePlan(h, m, c, dt);
    TimingNumbers(MoveDuration(h, m, c), dt);
  }

  lemma DurationNumbers(dist: real, feed: real)
    requires dist == 60.0 && feed == 600.0
    ensures dist / Max(feed / 60.0, MinSpeed) == 6.0
  {
    assert Max(feed / 60.0, MinSpeed) == 10.0;
  }

  /** Six seconds are 600 periods of 10 ms. */
  lemma TimingNumbers(duration: real, dt: real)
    requires duration == 6.0 && dt == 0.01
    ensures StepCount(duration, dt) == 600
  {
    assert duration / dt == 600.0;
  }
}
