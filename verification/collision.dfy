/** The collision detector (core/collision/index.js): every sample of the
    timeline is checked for leaving the machine's travel envelope and for entering
    each fixture's box inflated by the tool radius, and each hit becomes an
    event. */
module Collisions {
  import opened Wrappers
  import opened Vectors
  import opened Kinematics
  import opened MotionPlanner

  datatype EventKind = TravelLimit | Collision

  /** One event; `pair` names the two things that met. */
  datatype Event = Event(
    kind: EventKind,
    t: real,
    lineNumber: nat,
    blockIndex: nat,
    point: Vec3,
    pair: (string, string))

  const ToolName: string := "tool"
  const EnvelopeName: string := "machine_envelope"

  /** The tool diameter assumed when the machine names none. */
  const DefaultToolDiameter: real := 10.0

  /** `pointInAabb(p, aabb, radius)`: each coordinate, widened by `radius`
      on both sides, reaches the box; boundary points count as inside. */
  predicate PointInAabb(p: Vec3, box: Aabb, radius: real)
    ensures PointInAabb(p, box, radius) <==> Contains(Inflate(box, radius), p)
    ensures radius == 0.0 ==> (PointInAabb(p, box, radius) <==> Contains(box, p))
  {
    && p.x + radius >= box.min.x && p.x - radius <= box.max.x
    && p.y + radius >= box.min.y && p.y - radius <= box.max.y
    && p.z + radius >= box.min.z && p.z - radius <= box.max.z
  }

  /** The box grown by `r` on every side. */
  function Inflate(box: Aabb, r: real): Aabb {
    Aabb(Sub(box.min, Vec3(r, r, r)), Add(box.max, Vec3(r, r, r)))
  }

  /** Plain inclusive containment in a box. */
  predicate Contains(box: Aabb, p: Vec3) {
    && box.min.x <= p.x <= box.max.x
    && box.min.y <= p.y <= box.max.y
    && box.min.z <= p.z <= box.max.z
  }

  /** A larger radius accepts every point a smaller one does. */
  lemma PointInAabbMonotone(p: Vec3, box: Aabb, r1: real, r2: real)
    requires r1 <= r2
    ensures PointInAabb(p, box, r1) ==> PointInAabb(p, box, r2)
  {
  }

  /** Half the tool diameter, the diameter defaulting to 10. */
  function ToolRadius(m: Machine): (r: real)
    ensures m.toolDiameter.None? ==> r == 5.0
    ensures m.toolDiameter.Some? ==> 2.0 * r == m.toolDiameter.value
  {
    m.toolDiameter.GetOr(DefaultToolDiameter) / 2.0
  }

  /** The fixtures, none when the machine lists none. */
  function Fixtures(m: Machine): seq<Fixture> {
    m.fixtures.GetOr([])
  }

  function TravelEvent(s: Sample): Event {
    Event(TravelLimit, s.t, s.lineNumber, s.blockIndex, s.position, (ToolName, EnvelopeName))
  }

  function CollisionEvent(s: Sample, f: Fixture): Event {
    Event(Collision, s.t, s.lineNumber, s.blockIndex, s.position, (ToolName, f.name))
  }

  /** The envelope check of one sample: one event when the position lies
      outside the envelope, none otherwise. */
  function EnvelopeEvents(s: Sample, envelope: Aabb): seq<Event> {
    if PointInAabb(s.position, envelope, 0.0) then [] else [TravelEvent(s)]
  }

  /** The fixture checks of one sample, in fixture order. */
  function FixtureEvents(s: Sample, fixtures: seq<Fixture>, radius: real): seq<Event> {
    if |fixtures| == 0 then []
    else
      var f := fixtures[|fixtures| - 1];
      FixtureEvents(s, fixtures[..|fixtures| - 1], radius)
      + (if PointInAabb(s.position, f.aabb, radius) then [CollisionEvent(s, f)] else [])
  }

  /** Everything one sample produces: the envelope event first, then the
      fixture events. */
  function SampleEvents(s: Sample, m: Machine): seq<Event> {
    EnvelopeEvents(s, m.envelope) + FixtureEvents(s, Fixtures(m), ToolRadius(m))
  }

  /** `detectCollisions` as a fold over the timeline, in sample order. */
  function Detect(timeline: seq<Sample>, m: Machine): (r: seq<Event>)
    ensures |r| <= |timeline| * (1 + |Fixtures(m)|)
  {
    if |timeline| == 0 then []
    else
      var last := timeline[|timeline| - 1];
      SampleEventsShape(last, m);
      FixtureEventsCount(last, Fixtures(m), ToolRadius(m));
      assert (|timeline| - 1) * (1 + |Fixtures(m)|) + (1 + |Fixtures(m)|) == |timeline| * (1 + |Fixtures(m)|);
      Detect(timeline[..|timeline| - 1], m) + SampleEvents(last, m)
  }

  /** One more sample adds its events after those of the samples before. */
  lemma DetectSnoc(timeline: seq<Sample>, i: nat, m: Machine)
    requires i < |timeline|
    ensures Detect(timeline[..i + 1], m) == Detect(timeline[..i], m) + SampleEvents(timeline[i], m)
  {
    assert timeline[..i + 1][..i] == timeline[..i];
  }

  /** `detectCollisions`: the two nested loops of the source, pushing onto
      one event list. */
  method DetectCollisions(timeline: seq<Sample>, m: Machine) returns (events: seq<Event>)
    ensures events == Detect(timeline, m)
  {
    var fixtures := Fixtures(m);
    var radius := ToolRadius(m);
    events := [];
    var i := 0;
    while i < |timeline|
      invariant 0 <= i <= |timeline|
      invariant events == Detect(timeline[..i], m)
    {
      var s := timeline[i];
      if !PointInAabb(s.position, m.envelope, 0.0) {
        events := events + [TravelEvent(s)];
      }
      events := PushFixtureHits(events, s, fixtures, radius);
      DetectSnoc(timeline, i, m);
      i := i + 1;
    }
    assert timeline[..i] == timeline;
  }

  /** The inner loop of `detectCollisions`: one collision pushed per fixture
      whose inflated box holds the sample's position, in fixture order. */
  method PushFixtureHits(events: seq<Event>, s: Sample, fixtures: seq<Fixture>, radius: real)
    returns (out: seq<Event>)
    ensures out == events + FixtureEvents(s, fixtures, radius)
  {
    out := events;
    var j := 0;
    while j < |fixtures|
      invariant 0 <= j <= |fixtures|
      invariant out == events + FixtureEvents(s, fixtures[..j], radius)
    {
      var f := fixtures[j];
      if PointInAabb(s.position, f.aabb, radius) {
        out := out + [CollisionEvent(s, f)];
      }
      assert fixtures[..j + 1][..j] == fixtures[..j];
      j := j + 1;
    }
    assert fixtures[..j] == fixtures;
  }

  /** The fixture events of a split fixture list are those of each part in
      turn, so events follow fixture order. */
  lemma {:induction false} FixtureEventsAppend(s: Sample, a: seq<Fixture>, b: seq<Fixture>, radius: real)
    ensures FixtureEvents(s, a + b, radius) == FixtureEvents(s, a, radius) + FixtureEvents(s, b, radius)
    decreases |b|
  {
    if |b| == 0 {
      assert a + b == a;
    } else {
      var b' := b[..|b| - 1];
      assert (a + b)[..|a + b| - 1] == a + b';
      assert (a + b)[|a + b| - 1] == b[|b| - 1];
      FixtureEventsAppend(s, a, b', radius);
    }
  }

  /** One fixture gives one collision event exactly when its inflated box
      holds the position. */
  lemma FixtureEventsSingle(s: Sample, f: Fixture, radius: real)
    ensures FixtureEvents(s, [f], radius)
            == if PointInAabb(s.position, f.aabb, radius) then [CollisionEvent(s, f)] else []
  {
    assert [f][..0] == [];
  }

  /** Every fixture event is a collision with a fixture of the list whose
      inflated box holds the position, and every such fixture has its event. */
  lemma {:induction false} FixtureEventsExactly(s: Sample, fixtures: seq<Fixture>, radius: real)
    ensures forall e :: e in FixtureEvents(s, fixtures, radius) <==>
              exists f :: f in fixtures && PointInAabb(s.position, f.aabb, radius) && e == CollisionEvent(s, f)
    decreases |fixtures|
  {
    if |fixtures| > 0 {
      var init, f := fixtures[..|fixtures| - 1], fixtures[|fixtures| - 1];
      FixtureEventsExactly(s, init, radius);
      assert fixtures == init + [f];
      forall e | e in FixtureEvents(s, fixtures, radius)
        ensures exists g :: g in fixtures && PointInAabb(s.position, g.aabb, radius) && e == CollisionEvent(s, g)
      {
        if e in FixtureEvents(s, init, radius) {
          var g :| g in init && PointInAabb(s.position, g.aabb, radius) && e == CollisionEvent(s, g);
          assert g in fixtures;
        } else {
          assert f in fixtures;
        }
      }
      forall g | g in fixtures && PointInAabb(s.position, g.aabb, radius)
        ensures CollisionEvent(s, g) in FixtureEvents(s, fixtures, radius)
      {
        if g in init {
          assert CollisionEvent(s, g) in FixtureEvents(s, init, radius);
        } else {
          assert g == f;
        }
      }
    }
  }

  /** The number of fixture events is the number of fixtures hit. */
  function HitCount(p: Vec3, fixtures: seq<Fixture>, radius: real): nat {
    if |fixtures| == 0 then 0
    else HitCount(p, fixtures[..|fixtures| - 1], radius)
         + (if PointInAabb(p, fixtures[|fixtures| - 1].aabb, radius) then 1 else 0)
  }

  lemma {:induction false} FixtureEventsCount(s: Sample, fixtures: seq<Fixture>, radius: real)
    ensures |FixtureEvents(s, fixtures, radius)| == HitCount(s.position, fixtures, radius) <= |fixtures|
    ensures forall k :: 0 <= k < |FixtureEvents(s, fixtures, radius)| ==>
              FixtureEvents(s, fixtures, radius)[k].kind == Collision
    decreases |fixtures|
  {
    if |fixtures| > 0 {
      FixtureEventsCount(s, fixtures[..|fixtures| - 1], radius);
    }
  }

  /** Within one sample: there is at most one travel-limit event, it comes
      first, it is there exactly when the position is outside the envelope,
      and all other events are fixture collisions. */
  lemma SampleEventsShape(s: Sample, m: Machine)
    ensures var r := SampleEvents(s, m);
            |r| == (if PointInAabb(s.position, m.envelope, 0.0) then 0 else 1)
                   + HitCount(s.position, Fixtures(m), ToolRadius(m))
    ensures |SampleEvents(s, m)| > 0 && SampleEvents(s, m)[0].kind == TravelLimit
            <==> !PointInAabb(s.position, m.envelope, 0.0)
    ensures forall k :: 0 < k < |SampleEvents(s, m)| ==> SampleEvents(s, m)[k].kind == Collision
  {
    FixtureEventsCount(s, Fixtures(m), ToolRadius(m));
    var fe := FixtureEvents(s, Fixtures(m), ToolRadius(m));
    if PointInAabb(s.position, m.envelope, 0.0) {
      assert SampleEvents(s, m) == fe;
    } else {
      assert SampleEvents(s, m) == [TravelEvent(s)] + fe;
      forall k | 0 < k < |SampleEvents(s, m)|
        ensures SampleEvents(s, m)[k].kind == Collision
      {
        assert SampleEvents(s, m)[k] == fe[k - 1];
      }
    }
  }

  /** Every event of a sample carries that sample's time, line, block and
      position, and names the tool first. */
  predicate CopiesSample(e: Event, s: Sample) {
    e.t == s.t && e.lineNumber == s.lineNumber && e.blockIndex == s.blockIndex
    && e.point == s.position && e.pair.0 == ToolName
  }

  /** The pair of an event says which check produced it. */
  predicate PairMatchesKind(e: Event, m: Machine) {
    (e.kind == TravelLimit ==> e.pair.1 == EnvelopeName)
    && (e.kind == Collision ==> exists f :: f in Fixtures(m) && e.pair.1 == f.name)
  }

  lemma SampleEventsCopy(s: Sample, m: Machine)
    ensures forall e :: e in SampleEvents(s, m) ==> CopiesSample(e, s) && PairMatchesKind(e, m)
  {
    FixtureEventsExactly(s, Fixtures(m), ToolRadius(m));
    forall e | e in SampleEvents(s, m)
      ensures CopiesSample(e, s) && PairMatchesKind(e, m)
    {
      if e !in EnvelopeEvents(s, m.envelope) {
        assert e in FixtureEvents(s, Fixtures(m), ToolRadius(m));
        var f :| f in Fixtures(m) && PointInAabb(s.position, f.aabb, ToolRadius(m)) && e == CollisionEvent(s, f);
      }
    }
  }

  /** The events of a split timeline are those of each part in turn. */
  lemma {:induction false} DetectAppend(a: seq<Sample>, b: seq<Sample>, m: Machine)
    ensures Detect(a + b, m) == Detect(a, m) + Detect(b, m)
    decreases |b|
  {
    if |b| == 0 {
      assert a + b == a;
    } else {
      var b' := b[..|b| - 1];
      assert (a + b)[..|a + b| - 1] == a + b';
      assert (a + b)[|a + b| - 1] == b[|b| - 1];
      DetectAppend(a, b', m);
    }
  }

  /** A one-sample timeline gives exactly that sample's events. */
  lemma DetectSingle(s: Sample, m: Machine)
    ensures Detect([s], m) == SampleEvents(s, m)
  {
    assert [s][..0] == [];
  }

  /** Every sample is examined, and nothing else is reported: an event of
      the timeline is an event of one of its samples, and every event of
      every sample is in the result. */
  lemma {:induction false} DetectExactly(timeline: seq<Sample>, m: Machine)
    ensures forall e :: e in Detect(timeline, m) <==>
              exists i :: 0 <= i < |timeline| && e in SampleEvents(timeline[i], m)
    decreases |timeline|
  {
    if |timeline| > 0 {
      var init := timeline[..|timeline| - 1];
      var last := |timeline| - 1;
      DetectExactly(init, m);
      forall e | e in Detect(timeline, m)
        ensures exists i :: 0 <= i < |timeline| && e in SampleEvents(timeline[i], m)
      {
        if e in Detect(init, m) {
          var i :| 0 <= i < |init| && e in SampleEvents(init[i], m);
          assert init[i] == timeline[i];
        } else {
          assert e in SampleEvents(timeline[last], m);
        }
      }
      forall e, i | 0 <= i < |timeline| && e in SampleEvents(timeline[i], m)
        ensures e in Detect(timeline, m)
      {
        if i < last {
          assert init[i] == timeline[i];
          assert e in Detect(init, m);
        }
      }
    }
  }

  /** With no fixtures there are only travel-limit events, at most one per
      sample. */
  lemma {:induction false} NoFixturesNoCollisions(timeline: seq<Sample>, m: Machine)
    requires Fixtures(m) == []
    ensures forall k :: 0 <= k < |Detect(timeline, m)| ==> Detect(timeline, m)[k].kind == TravelLimit
    ensures |Detect(timeline, m)| <= |timeline|
    decreases |timeline|
  {
    if |timeline| > 0 {
      NoFixturesNoCollisions(timeline[..|timeline| - 1], m);
      assert SampleEvents(timeline[|timeline| - 1], m) == EnvelopeEvents(timeline[|timeline| - 1], m.envelope);
    }
  }

  /** A position clear of every inflated fixture box raises no fixture
      event. */
  lemma {:induction false} FixtureEventsNone(s: Sample, fixtures: seq<Fixture>, radius: real)
    requires forall f :: f in fixtures ==> !PointInAabb(s.position, f.aabb, radius)
    ensures FixtureEvents(s, fixtures, radius) == []
    decreases |fixtures|
  {
    if |fixtures| > 0 {
      assert fixtures[|fixtures| - 1] in fixtures;
      FixtureEventsNone(s, fixtures[..|fixtures| - 1], radius);
    }
  }

  /** A timeline that stays inside the envelope and clear of every inflated
      fixture box raises no event. */
  lemma {:induction false} ClearTimelineIsSilent(timeline: seq<Sample>, m: Machine)
    requires forall i :: 0 <= i < |timeline| ==> PointInAabb(timeline[i].position, m.envelope, 0.0)
    requires forall i, f :: 0 <= i < |timeline| && f in Fixtures(m) ==>
               !PointInAabb(timeline[i].position, f.aabb, ToolRadius(m))
    ensures Detect(timeline, m) == []
    decreases |timeline|
  {
    if |timeline| > 0 {
      var last := |timeline| - 1;
      FixtureEventsNone(timeline[last], Fixtures(m), ToolRadius(m));
      ClearTimelineIsSilent(timeline[..last], m);
    }
  }
}
