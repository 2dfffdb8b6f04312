/** The interpreter's modal state (core/interpreter/modal_state.js): every
    setting a G-code block may leave unspecified and that therefore carries
    over from the blocks before it. */
module ModalState {
  import opened Vectors

  /** Plane selection, G17 (XY), G18 (ZX) or G19 (YZ). */
  datatype Plane = G17 | G18 | G19

  /** G21 selects millimetres, G20 inches. */
  datatype Units = Millimetres | Inches

  /** G90 absolute or G91 incremental axis targets. */
  datatype DistanceMode = Absolute | Incremental

  /** G94, feed in units per minute: the only feed mode the interpreter sets. */
  datatype FeedMode = UnitsPerMinute

  /** G0 rapid or G1 linear: the only motion modes the interpreter sets. */
  datatype MotionMode = Rapid | Linear

  /** M3 clockwise, M4 counter-clockwise, M5 stopped. */
  datatype SpindleMode = Clockwise | CounterClockwise | Stopped

  datatype State = State(
    plane: Plane,
    units: Units,
    distanceMode: DistanceMode,
    feedMode: FeedMode,
    motionMode: MotionMode,
    spindleMode: SpindleMode,
    spindleRpm: real,
    feed: real,
    workOffset: string,
    tool: real,
    position: Vec3)

  /** The work offset the interpreter starts in and the only one G-code can
      select (G54). */
  const DefaultWorkOffset: string := "G54"

  /** `createModalState`. */
  function Initial(): (s: State)
    ensures s.plane == G17 && s.units == Millimetres
    ensures s.distanceMode == Absolute && s.feedMode == UnitsPerMinute
    ensures s.motionMode == Rapid && s.spindleMode == Stopped && s.spindleRpm == 0.0
    ensures s.feed == 1000.0 && s.workOffset == DefaultWorkOffset && s.tool == 0.0
    ensures s.position == Zero
  {
    State(G17, Millimetres, Absolute, UnitsPerMinute, Rapid, Stopped, 0.0, 1000.0,
          DefaultWorkOffset, 0.0, Zero)
  }
}
