# A verified model of the CNC simulation core

This project models the computational core of a three-axis CNC machining
simulator in Dafny and proves properties of the model. The core is six
sequential stages over plain data:

1. **G-code parser** (`GcodeParser`). It turns source text into one block per
   line. It strips `( … )` and `;` comments, trims and upper-cases the line,
   and scans `<letter><signed decimal>` words. Syntax errors are recorded on
   the block and never raised.
2. **Modal state and interpreter** (`ModalState`, `Interpreter`). This is a
   state machine over blocks. In order it applies a block's G and M codes,
   then F, S and T, then the X/Y/Z target. It handles absolute (G90) and
   incremental (G91) targets and inch-to-millimetre conversion. It emits
   motion, tool-change and modal-snapshot commands, together with error and
   warning diagnostics.
3. **Kinematics** (`Kinematics`). This is the forward transform (a
   translation by work offset and tool-centre point) and the per-axis feed
   clamp.
4. **Motion planner** (`MotionPlanner`). It splits each travelling motion into
   `max(1, ceil(duration / dt))` linearly interpolated, time-stamped samples.
5. **Collision detector** (`Collisions`, `Triangle`). It tests every sample
   against the travel envelope and against fixture boxes inflated by the tool
   radius. It also has a separate barycentric triangle–triangle test.
6. **Voxel stock** (`Stock`, `StockCarve`, `StockHash`, `StockExport`). This
   is a dense occupancy grid that carving only ever clears. It also has the
   32-bit FNV-1a fingerprint of the occupancy bytes and the ASCII STL export
   of the occupied cells' top faces.

`numbers.dfy` (modules `Wrappers` and `Numbers`) and `vectors.dfy` (module
`Vectors`) hold the shared pieces:
- the `Option` type that stands for the source's `??` defaults;
- the `Math` functions the core uses (`abs`, `min`, `max`, `floor`, `ceil`,
  `trunc`);
- three-component vectors and axis-aligned boxes.

## How the numbers are modelled

- Every quantity is an exact `real`. Nothing in the model depends on
  IEEE-754 rounding.
- `Math.hypot` is a parameter. Every operation that measures a length takes
  a function `h: Length` (`Vec3 -> real`) and uses it where the source
  calls `Math.hypot`.
- Properties that depend on what `hypot` is are proved for every `h` of the
  subset type `Hypot`. That type lists the laws of the Euclidean length the
  model needs:
  - it is at least the magnitude of each component;
  - it is exact on vectors along one axis;
  - it ignores the signs of the components.
  From these, `Vectors.DistProperties` derives that distance is
  non-negative, zero exactly between equal points, and symmetric.
- `Number(match[2])` on a scanned word is the exact rational value of its
  decimal text (`GcodeParser.DecimalValue`).
- The two regular expressions of the parser are explicit character
  scanners. They keep the JavaScript details that matter:
  - `.` does not match the four line terminators;
  - `$` without the `m` flag matches only at the end of the input;
  - `\s` and `trim` use the ECMAScript whitespace set.
- The hash is computed on `bv32`. Wrap-around multiplication there is
  exactly `Math.imul` followed by `>>> 0`.

## Model

| member | source | states |
|---|---|---|
| `GcodeParser.CloseParen` | core/gcode_parser/index.js:4 | The lazy `\(.*?\)` closes at the first `)` after the `(`, the shortest match there is, and only when no line terminator comes before that `)`. |
| `GcodeParser.CloseParenNone` | core/gcode_parser/index.js:4 | The lazy match fails exactly when every `)` has a line terminator before it. |
| `GcodeParser.CloseAtFirst` | core/gcode_parser/index.js:4 | A `)` with no `)` and no line terminator before it is where the group closes. |
| `GcodeParser.StripParensLeavesNoGroup` | core/gcode_parser/index.js:4 | After the parenthesis pass no `(` is closed by a `)` on the same line. |
| `GcodeParser.StripParensKeepsPrefix` | core/gcode_parser/index.js:4 | Text before the first `(` is kept as written. |
| `GcodeParser.StripParensDropsGroup` | core/gcode_parser/index.js:4 | A `(`, text with no `)` and no line terminator, and a `)` are removed together, and the pass goes on after the `)`. |
| `GcodeParser.StripParensCutsAtFirst` | core/gcode_parser/index.js:4 | The pass keeps the text before the first `(`, removes the group up to the first `)` after it, and goes on after that `)`. |
| `GcodeParser.LazyGroupExample` | core/gcode_parser/index.js:4 | In `(a)b)` the group closes at the first `)`, so `b)` is left, where a greedy match would remove everything. |
| `GcodeParser.StripParensIdentity` | core/gcode_parser/index.js:4 | Text with no closable group passes the parenthesis pass unchanged. |
| `GcodeParser.StripSemicolonLeavesNoComment` | core/gcode_parser/index.js:4 | After the `;.*$` pass no `;` is followed by a line-terminator-free run to the end of the input. |
| `GcodeParser.StripSemicolonIdentity` | core/gcode_parser/index.js:4 | Text with no such comment passes the semicolon pass unchanged. |
| `GcodeParser.StripSemicolonCutsAtFirst` | core/gcode_parser/index.js:4 | On a single line, the semicolon pass keeps exactly the text before the first `;`. |
| `GcodeParser.StripComments` | core/gcode_parser/index.js:3-5 | What `stripComments` leaves has no `(` closed on its line and no `;` followed by line-terminator-free text to the end. |
| `GcodeParser.StripCommentsIdempotent` | core/gcode_parser/index.js:3-5 | Applying `stripComments` twice equals applying it once. |
| `GcodeParser.TrimStart` | core/gcode_parser/index.js:8 | Removes exactly a run of leading whitespace. The result is a suffix of the input that starts with a non-space. |
| `GcodeParser.TrimEnd` | core/gcode_parser/index.js:8 | Removes exactly a run of trailing whitespace. The result is a prefix of the input that ends with a non-space. |
| `GcodeParser.TrimIsSlice` | core/gcode_parser/index.js:8 | `trim` keeps the text between a run of leading and a run of trailing whitespace. |
| `GcodeParser.Trim` | core/gcode_parser/index.js:8 | A non-empty trimmed line neither starts nor ends with whitespace. |
| `GcodeParser.ToUpper` | core/gcode_parser/index.js:8 | Upper-casing keeps the length and maps each character on its own. Whitespace stays whitespace. |
| `GcodeParser.RemoveSpaces` | core/gcode_parser/index.js:13 | The compacted line has no whitespace, and it is non-empty when the line starts with a non-space. |
| `GcodeParser.WordEndIsLongestMatch` | core/gcode_parser/index.js:1 | An anchored match of `[A-Z][+-]?\d*\.?\d+` ends where `WordEnd` says: that text matches and no longer text from the same start does. When `WordEnd` finds nothing, no text from that start matches. |
| `GcodeParser.UnsignedEnds` | core/gcode_parser/index.js:1 | A text from `q` matches `\d*\.?\d+` exactly when it ends inside the run of digits at `q`, or after a `.` that ends that run, inside the digits after it. |
| `GcodeParser.WordEndExamples` | core/gcode_parser/index.js:1 | In `X1.F` the word is `X1`, because a `.` with no digit after it is not taken. In `G-.5` the word is the whole text. `X.` has no word. |
| `GcodeParser.NextMatch` | core/gcode_parser/index.js:19 | A resumed `exec` finds the leftmost position from the cursor where a word matches. No position before it matches. When there is none, no position to the end matches. |
| `GcodeParser.ScanFrom` | core/gcode_parser/index.js:19-25 | Every word's letter is an uppercase A–Z and is the first character of its raw text. Its value is the decimal that follows. There are at most one more errors than words. |
| `GcodeParser.UnsignedValueParts` | core/gcode_parser/index.js:24 | The value of an unsigned number is its whole digits' value plus a fraction below one. |
| `GcodeParser.DecimalValueSign` | core/gcode_parser/index.js:24 | A leading `-` negates the value and a leading `+` keeps it. |
| `GcodeParser.DecimalValueExamples` | core/gcode_parser/index.js:24 | `-.5` reads as -0.5 and `12.25` as 12.25. |
| `GcodeParser.ScanStep` | core/gcode_parser/index.js:19-24 | One match adds its word, in order, after the words before it. It adds a gap error exactly when the match does not start at the cursor. |
| `GcodeParser.ScanTail` | core/gcode_parser/index.js:19-29 | Once no match is left the scan adds no word. It adds exactly one `Cannot parse tail` error holding the rest of the line when text is left, and no error otherwise. |
| `GcodeParser.NoErrorsCovers` | core/gcode_parser/index.js:19-29 | With no errors, the words' raw texts spell out the rest of the compact line. |
| `GcodeParser.ErrorsLeaveGap` | core/gcode_parser/index.js:20-29 | With an error (gap or tail), the words' raw texts cover strictly less than the rest of the line. |
| `GcodeParser.ScanCoversIffNoErrors` | core/gcode_parser/index.js:13-29 | The scan reports no error if and only if the words' raw texts concatenate to the whole compact line. |
| `GcodeParser.ParseBlock` | core/gcode_parser/index.js:7-32 | The block keeps its line number and raw line, and `cleaned` is the stripped, trimmed and upper-cased line. It has no words and no errors exactly when `cleaned` is empty. Every word letter is uppercase. The errors are empty iff the raw texts spell the whitespace-free line. |
| `GcodeParser.SplitNewlinesCount` | core/gcode_parser/index.js:35 | Splitting yields one piece more than there are line feeds. |
| `GcodeParser.SplitThenJoin` | core/gcode_parser/index.js:35 | Joining the pieces with line feeds gives back the source. |
| `GcodeParser.JoinThenSplit` | core/gcode_parser/index.js:35 | Splitting the join of line-feed-free lines gives back the lines. |
| `GcodeParser.DropCarriageReturn` | core/gcode_parser/index.js:35 | A line loses exactly one carriage return that ends it, and is otherwise unchanged. |
| `GcodeParser.Lines` | core/gcode_parser/index.js:35 | `split(/\r?\n/)` gives one line per line feed plus one, with no line feeds left. Every line but the last is its piece without an ending carriage return, and the last piece is kept whole. |
| `GcodeParser.ParseLines` | core/gcode_parser/index.js:35 | One block per line. Block `i` has line number `i + 1`, the `i`-th line as its raw text, and that line cleaned. |
| `GcodeParser.ParseProgram` | core/gcode_parser/index.js:34-36 | There is one block per line, that is, one more than the line feeds. Block `i` has line number `i + 1`, the `i`-th line as its raw text, and that line cleaned. |
| `ModalState.Initial` | core/interpreter/modal_state.js:1-15 | The start state is G17, mm, G90, G94, G0 and M5, with spindle 0, feed 1000, offset G54, tool 0 and position at the origin. |
| `Numbers.Trunc` | core/interpreter/index.js:39 | `Math.trunc` rounds toward zero: the integer part has the sign of the value and lies within one of it in magnitude. |
| `Interpreter.FirstValue` | core/interpreter/index.js:32-35 | The word map holds a letter exactly when some word has it, and its value is that of the first such word. |
| `Interpreter.FirstOccurrenceWins` | core/interpreter/index.js:32-35 | A later word with a letter already present does not change the map's entry. |
| `Interpreter.ApplyEffect` | core/interpreter/index.js:40-47 | A G or M code never changes tool, position, feed or spindle speed. |
| `Interpreter.ApplyModalWords` | core/interpreter/index.js:37-53 | The G/M pass leaves tool, position, feed and speed alone. Its only commands are tool changes carrying the block's T value or the previous tool. Its only diagnostics are warnings. |
| `Interpreter.ModalWordCounts` | core/interpreter/index.js:48-52 | Each M6 yields exactly one tool change and each unsupported G/M code exactly one warning. |
| `Interpreter.ModalWordsInOrder` | core/interpreter/index.js:37-53 | G/M words act in the order written: the pass over `a + b` is the pass over `a`, then over `b` from the state `a` left. |
| `Interpreter.MotionModeIsLastWritten` | core/interpreter/index.js:45 | The motion mode after the G/M pass is that of the last G0/G1 word, or the previous mode when there is none. |
| `Interpreter.ModalMotionPersists` | tests/parser-modal.test.js:6-12 | An executed block runs in the mode of its last G0/G1 word, and otherwise in the mode of the blocks before it. |
| `Interpreter.SkippedBlocks` | core/interpreter/index.js:26-30 | A blank block does nothing. A block with parse errors yields one error diagnostic joining its messages with `; `, no commands, and an unchanged state. |
| `Interpreter.ExecutedBlockCommands` | core/interpreter/index.js:59-84 | An executed block ends with exactly one snapshot equal to the new state. It has a motion exactly when X, Y or Z is present, running from the old position to the new one in the block's mode and feed. Without a target the position is unchanged, and all its diagnostics are warnings. |
| `Interpreter.ExecutedBlockSettings` | core/interpreter/index.js:55-57 | F is converted with the units in force after the block's G codes, and S and T are stored as written. The commands and diagnostics of the G/M pass come first. |
| `Interpreter.ExecutedBlockPosition` | core/interpreter/index.js:9-18 | A named axis takes the converted value in G90 or adds it in G91. An unnamed axis keeps its value. |
| `Interpreter.ToolChangeCarriesTool` | core/interpreter/index.js:48-49 | Every tool change carries the block's first T value, or the tool active before the block. |
| `Interpreter.InterpretBlock` | core/interpreter/index.js:25-85 | A blank or erroneous block leaves the state and emits no command. An erroneous block yields exactly one error. An error-free block yields only warnings. Every diagnostic carries the block's index. An executed block ends with the snapshot of the state it leaves. |
| `Interpreter.InterpretBlocks` | core/interpreter/index.js:20-88 | The program's motions form one continuous path from the origin to the final position, and no blocks leave the initial state with nothing emitted. |
| `Interpreter.RunPrefix` | core/interpreter/index.js:25-85 | For any per-block step, running `a + b` is running `a`, then `b` from the state `a` left, with block indices continuing. |
| `Interpreter.InterpretPrefix` | core/interpreter/index.js:20-88 | Interpreting `a + b` is interpreting `a`, then `b` from the state `a` left, with block indices continuing. |
| `Interpreter.BlockMotionsChained` | core/interpreter/index.js:59-77 | A block's motions run from the position before the block to the position after it. |
| `Interpreter.ProgramMotionsChained` | core/interpreter/index.js:25-85 | A program's motions form one continuous path from the start position to the final position. |
| `Kinematics.ForwardKinematics` | core/kinematics/index.js:5-12 | The transform adds work offset plus TCP, each zero when absent. With neither it is the identity. |
| `Kinematics.ForwardKinematicsIsTranslation` | core/kinematics/index.js:5-12 | The transform preserves differences between positions. |
| `Kinematics.LimitFeedByAxes` | core/kinematics/index.js:14-29 | A move shorter than 1e-9 gets feed 0, and any other move never exceeds the desired feed. |
| `Kinematics.MinCeiling` | core/kinematics/index.js:27 | `Math.min` over candidates where infinity is absent: it is at most each candidate and equal to one of them. |
| `Kinematics.PathCeilingIsLeast` | core/kinematics/index.js:21-27 | A speed is within the path ceiling iff it is within each moving axis's ceiling. |
| `Kinematics.LimitFeedDegenerate` | core/kinematics/index.js:18-19 | A move shorter than 1e-9, in particular a move to the same point, gets feed 0. |
| `Kinematics.ClampFeedBounded` | core/kinematics/index.js:27-28 | The clamp never exceeds the desired feed. It equals the desired feed iff the desired speed is within every axis ceiling. |
| `Kinematics.LimitFeedIsClamp` | core/kinematics/index.js:14-28 | Past the threshold, some axis moves and the feed is the clamp of the measured move. |
| `Kinematics.LimitFeedBounded` | core/kinematics/index.js:14-29 | For a real move the feed is at most the desired feed. It equals it iff the desired speed is within every moving axis's ceiling. |
| `Kinematics.ClampFeedRespectsAxes` | core/kinematics/index.js:21-28 | Along each moving axis the clamped speed's share is at most that axis's maximum velocity. |
| `Kinematics.LimitFeedRespectsAxes` | core/kinematics/index.js:21-28 | For a real move, each moving axis's share of the feed, `feed/60 · d/dist`, is at most its maximum velocity. Axes that do not move impose nothing. |
| `Kinematics.LimitFeedSingleAxis` | core/kinematics/index.js:21-28 | A move along X alone is capped by the X limit alone: `min(desired/60, vX) · 60`. |
| `Kinematics.LimitFeedSymmetric` | core/kinematics/index.js:15-17 | Reversing a move does not change its feed. |
| `Vectors.Lerp` | core/motion_planner/index.js:26-31 | Interpolation at `u = 0` is `from` and at `u = 1` is `to`. |
| `Vectors.DistProperties` | core/motion_planner/index.js:14 | Distance is non-negative, zero exactly between equal points, and symmetric. |
| `Vectors.DistAlongX` | core/motion_planner/index.js:14 | A move along X alone is as long as its X extent. |
| `MotionPlanner.RapidFeed` | core/motion_planner/index.js:17-18 | The G0 feed is 60 times the smallest axis maximum velocity. |
| `MotionPlanner.MoveFeedBounds` | core/motion_planner/index.js:17-19 | G0 runs at the rapid feed. Other modes never run faster than `max(1, feed)`. |
| `MotionPlanner.MoveDuration` | core/motion_planner/index.js:21 | A travelling motion takes a positive time. |
| `MotionPlanner.StepCount` | core/motion_planner/index.js:22 | At least one step, and the fewest whole steps not below `duration/dt`. A move no longer than one period takes one step. |
| `MotionPlanner.OffsetFor` | core/motion_planner/index.js:23 | The named work offset from the machine's table, zero for an unknown name, and zero when the machine has no table (the default table holds only a zero G54). |
| `MotionPlanner.SamplesWhole` | core/motion_planner/index.js:25-33 | `steps` samples spaced `duration/steps` apart: the last is at the cursor plus `duration` and lands on `to`. |
| `MotionPlanner.MoveSamplesShape` | core/motion_planner/index.js:21-44 | A motion yields `StepCount` samples. Sample `k` is at `(k+1)/steps` along the move and `k+1` periods after the cursor, with its position the forward transform under the named offset. Each sample copies feed, block, line, spindle and mode, and the last lands on `to` at the cursor plus the duration. |
| `MotionPlanner.MoveSamplesTimed` | core/motion_planner/index.js:25-33 | A motion's samples are strictly increasing in time, all after the cursor, and none after the cursor plus the duration. |
| `MotionPlanner.NonTravelSkipped` | core/motion_planner/index.js:10-15 | Non-motions and motions shorter than 1e-9 add no samples and do not advance time. |
| `MotionPlanner.PlanAppend` | core/motion_planner/index.js:9-46 | Commands are planned in order, and each advances the time cursor by exactly its duration. |
| `MotionPlanner.PlanCount` | core/motion_planner/index.js:22-25 | The timeline has one sample per step of every travelling motion. |
| `MotionPlanner.PlanTimed` | core/motion_planner/index.js:6-33 | Timestamps strictly increase, all lie after the starting cursor, and none lies after the cursor plus the total time. |
| `MotionPlanner.PlanTrajectory` | core/motion_planner/index.js:3-49 | The timeline's length is the total step count. All timestamps are above 0 and strictly increase, and none exceeds the total planned time. |
| `MotionPlanner.SingleMovePlan` | core/motion_planner/index.js:9-46 | A one-motion program plans exactly that motion's samples, and the last is at its duration and on its target. |
| `MotionPlanner.ExampleTravel` | tests/planner-timing.test.js:6-7 | The test's move (0,0,0) to (60,0,0) travels, and its length is 60. |
| `MotionPlanner.ExampleFeed` | tests/planner-timing.test.js:6-7 | At feed 600 with every axis allowing 200 mm/s, the move runs at 600 mm/min. |
| `MotionPlanner.ExampleDuration` | tests/planner-timing.test.js:6-7 | The test's move takes 6 s. |
| `MotionPlanner.TimingExample` | tests/planner-timing.test.js:6-11 | With `dt = 0.01` the timeline has 600 samples, and the last is at exactly t = 6 and at (60, 0, 0). |
| `Collisions.PointInAabb` | core/collision/index.js:1-5 | The test with radius `r` is inclusive containment in the box grown by `r`. With radius 0 it is containment in the box. |
| `Collisions.PointInAabbMonotone` | core/collision/index.js:1-5 | A larger radius accepts every point a smaller one does. |
| `Collisions.ToolRadius` | core/collision/index.js:11 | The radius is half the tool diameter, and 5 when the machine names no tool. |
| `Collisions.Detect` | core/collision/index.js:7-41 | The whole timeline raises at most (number of samples) · (1 + number of fixtures) events, that is, no more than one travel-limit event and one collision per fixture for each sample. |
| `Collisions.DetectSnoc` | core/collision/index.js:13-38 | One more sample adds exactly its own events at the end. |
| `Collisions.PushFixtureHits` | core/collision/index.js:26-37 | The fixture loop appends exactly the sample's fixture events. |
| `Collisions.DetectCollisions` | core/collision/index.js:7-41 | The nested loops produce exactly the sample-by-sample fold `Detect`. |
| `Collisions.SampleEventsShape` | core/collision/index.js:13-38 | Per sample: at most one travel-limit event, first, present exactly when the position is outside the envelope. The rest are collisions, one per fixture hit. |
| `Collisions.SampleEventsCopy` | core/collision/index.js:16-35 | Each event copies its sample's t, line, block and position. Its pair is `(tool, machine_envelope)` or `(tool, <fixture name>)`, as its kind says. |
| `Collisions.FixtureEventsAppend` | core/collision/index.js:26-37 | Fixture events follow fixture order. |
| `Collisions.FixtureEventsSingle` | core/collision/index.js:27-36 | One fixture gives one collision exactly when its inflated box holds the position. |
| `Collisions.FixtureEventsExactly` | core/collision/index.js:26-37 | The fixture events are exactly the collisions with fixtures whose inflated box holds the position. |
| `Collisions.FixtureEventsCount` | core/collision/index.js:26-37 | There are as many fixture events as fixtures hit, at most one per fixture, all of kind collision. |
| `Collisions.FixtureEventsNone` | core/collision/index.js:26-37 | A position clear of every inflated fixture box raises no fixture event. |
| `Collisions.DetectAppend` | core/collision/index.js:13-38 | Events follow sample order. |
| `Collisions.DetectSingle` | core/collision/index.js:13-38 | A one-sample timeline reports exactly that sample's events. |
| `Collisions.DetectExactly` | core/collision/index.js:13-38 | Every sample is examined: an event is reported iff it is an event of some sample. |
| `Collisions.NoFixturesNoCollisions` | core/collision/index.js:10 | With no fixtures there are only travel-limit events, at most one per sample. |
| `Collisions.ClearTimelineIsSilent` | core/collision/index.js:13-38 | A timeline inside the envelope and clear of all inflated fixtures raises no event. |
| `Triangle.IntersectSymmetric` | core/collision/triangle.js:19-21 | The triangle test is symmetric in its arguments. |
| `Triangle.TriangleTriangleIntersect` | core/collision/triangle.js:19-21 | Two triangles intersect iff some vertex of one lies in the other. |
| `Triangle.PointInTri` | core/collision/triangle.js:7-17 | A point is never inside a triangle whose determinant is below `1e-9` in magnitude. |
| `Triangle.CollinearHasNoArea` | core/collision/triangle.js:11-12 | A triangle with parallel edges has determinant 0 and contains no point. |
| `Triangle.NormalShiftInvariant` | core/collision/triangle.js:9-16 | Moving a point along the triangle's normal does not change the answer. |
| `Triangle.VertexWeights` | core/collision/triangle.js:13-16 | The barycentric weights of the three vertices pass the bounds when the determinant is not degenerate. |
| `Triangle.PointInTriDots` | core/collision/triangle.js:9-10 | The test depends on the point only through the two dot products `d20` and `d21`. |
| `Triangle.VerticesInside` | core/collision/triangle.js:7-17 | Every vertex of a non-degenerate triangle lies inside it. |
| `Triangle.IntersectsItself` | core/collision/triangle.js:19-21 | A non-degenerate triangle intersects itself. |
| `Triangle.OrthonormalWeights` | core/collision/triangle.js:13-16 | For orthonormal edges the weights are the point's two offsets and one minus their sum. |
| `Triangle.UnitTriangle` | core/collision/triangle.js:7-17 | For a unit right triangle, a point is inside iff its two offsets are non-negative and sum to at most one, all within `1e-9`. |
| `Triangle.OverlappingExample` | tests/triangle.test.js:6-8 | The test's two overlapping triangles intersect. |
| `Triangle.SeparatedExample` | core/collision/triangle.js:19-21 | Two unit right triangles two units apart along X and Y do not intersect. |
| `Stock.CellCount` | core/stock/index.js:2-4 | At least one cell per axis, and the fewest whole cells not below `dim / voxelSize`. |
| `Stock.Create` | core/stock/index.js:1-7 | A fresh stock keeps its dimensions and has `max(1, ceil(dim / voxelSize))` cells along each axis (`CellCount`). It has one byte per cell, and every cell is 1. |
| `Stock.CreateIsFull` | core/stock/index.js:5 | Every cell of a fresh stock counts as occupied: the occupied count is `nx·ny·nz`. |
| `Stock.Idx` | core/stock/index.js:9-11 | A cell of the grid has a flat position in `[0, nx·ny·nz)`, and the cell's coordinates can be read back from it. |
| `Stock.IdxOfCoords` | core/stock/index.js:9-11 | Every flat position is `idx` of exactly one cell of the grid. |
| `Stock.OccupancyOnlyDrops` | core/stock/index.js:37 | Writing only zeros never raises the occupied count. |
| `StockCarve.SweepSteps` | core/stock/index.js:14-15 | At least one step, and the fewest whole steps not below `len / (vs/2)`. A move no longer than half a cell takes one step. |
| `StockCarve.SweptUpToIffSomePoint` | core/stock/index.js:16-22 | The first `k` sweep points clear a cell iff one of them does. |
| `StockCarve.SweptIffSomePoint` | core/stock/index.js:16-22 | A move clears a cell iff one of its `steps + 1` evenly spaced points, both ends included, does. |
| `StockCarve.ClearCell` | core/stock/index.js:37 | Clearing writes 0 at one index and changes nothing else. |
| `StockCarve.CarveAt` | core/stock/index.js:23-41 | The loops for one sweep point clear exactly the visited cells whose centre is within the radius, and keep every other byte. |
| `StockCarve.CarveWithTool` | core/stock/index.js:13-43 | The grid is untouched, and a cell ends cleared exactly when the move sweeps it. All other bytes are kept. |
| `StockCarve.RunStockRemoval` | core/stock/index.js:45-50 | Each consecutive sample pair, by axis positions and with radius diameter/2, is carved in order. A cell is cleared iff some pair sweeps it, and occupancy never rises. |
| `StockCarve.ShortTimelineRemovesNothing` | core/stock/index.js:46 | A timeline shorter than two samples removes nothing. |
| `StockCarve.RemovedIffSomeMove` | core/stock/index.js:45-50 | A cell is removed iff one of the timeline's moves sweeps it. |
| `StockCarve.AxisWindowCovers` | core/stock/index.js:23-28 | Along one axis, the clipped index window contains every cell whose centre is within the radius of the coordinate. |
| `StockCarve.WindowCovers` | core/stock/index.js:23-28 | For a positive cell size, the clipped window contains every grid cell whose centre is within the radius along each axis. |
| `StockCarve.ClearsIffNear` | core/stock/index.js:23-36 | For a positive cell size, a grid cell is cleared by a tool position iff its centre is within the radius. |
| `StockHash.Fnv1a` | core/stock/index.js:53-57 | The empty input hashes to the offset basis. Otherwise the hash is the last byte's xor-then-multiply step applied to the hash of the bytes before it. |
| `StockHash.FnvAppend` | core/stock/index.js:53-57 | The fold over `a + b` continues from the hash of `a`. |
| `StockHash.FnvKnownAnswers` | core/stock/index.js:53-57 | The empty input hashes to the offset basis 0x811c9dc5, and "a" hashes to 0xe40c292c. |
| `StockHash.PadStart` | core/stock/index.js:58 | `padStart` returns a text at least `width` long unchanged. Otherwise it puts `width - len` pad characters before the text. |
| `StockHash.HexDigitsLength` | core/stock/index.js:58 | A number below `16^k` has at most `k` hexadecimal digits. |
| `StockHash.HexDigitsRoundTrip` | core/stock/index.js:58 | `toString(16)` gives lowercase hexadecimal digits that read back as the number. |
| `StockHash.LeadingZeros` | core/stock/index.js:58 | Zero padding does not change the value a numeral reads as. |
| `StockHash.HashHex` | core/stock/index.js:58 | The rendered hash is exactly 8 lowercase hexadecimal digits and reads back as the hash. |
| `StockHash.StockHashOf` | core/stock/index.js:52-59 | The loop computes the FNV-1a fold of the voxel bytes in index order, rendered as 8 hexadecimal digits. |
| `StockHash.Determinism` | tests/determinism.test.js:5-13 | Two fresh stocks of the same size, carved by the same timeline and diameter, hash to the same 8-digit text. |
| `StockExport.CollectFacets` | core/stock/index.js:62-74 | The z/y/x loops collect the facets of the occupied cells in flat-position order. |
| `StockExport.CollectRow` | core/stock/index.js:66-72 | The innermost loop yields the facets of the row's occupied cells in order. Appended to those of the cells before the row, they give those of every cell up to the row's end. |
| `StockExport.ExportStockToAsciiStl` | core/stock/index.js:61-83 | The text is the header line, seven lines per facet, and the footer, joined by line feeds. |
| `StockExport.FacetsCount` | core/stock/index.js:66-72 | Two facets per occupied cell and none for a cleared one. |
| `StockExport.FacetLinesCount` | core/stock/index.js:76-80 | Seven lines per facet. |
| `StockExport.ExportLinesShape` | core/stock/index.js:75-81 | There are `2 + 14 · occupied` lines, starting with the header and ending with the footer. |
| `StockExport.EmptyStockExport` | core/stock/index.js:67 | A fully cleared stock exports only the header and footer. |
| `StockExport.CellFacetsFaceUp` | core/stock/index.js:68-71 | Both triangles of a cell lie at `z = (z+1)·vs` and wind so their true normal is `(0, 0, vs²)`, matching the declared `facet normal 0 0 1` for positive cells. |
| `StockExport.RenderEnds` | core/stock/index.js:75-82 | The text starts with `solid reststock` and ends with `endsolid reststock`. |

## Left out

- Number formatting: the STL vertex coordinates are written by a formatting
  function passed as a parameter. JavaScript's number-to-string conversion
  is not modelled.
- Floating point: all quantities are exact reals. IEEE-754 rounding is not
  modelled, so, for example, the time cursor reaches each motion's end time
  exactly.
- `Math.hypot` is abstract (`Length` / `Hypot`), as described above.
- A zero `dt` or `voxelSize` is excluded by `requires`, because the source
  does not return on either. With `dt = 0` the step count is Infinity, so
  the sampling loop never ends. With `voxelSize = 0` and a positive
  dimension, allocating the grid throws a `RangeError`, and carving's
  sample count is Infinity, so its loop never ends.
- Missing data the source would dereference and throw on (an absent
  `machine.envelope` or axis entry) cannot occur: the `Machine` datatype
  always holds them. The optional members (`tcp`, `workOffsets`,
  `fixtures`, the tool diameter) are `Option`s.
- Work-offset names that collide with JavaScript object-prototype keys are
  not modelled. The table is a plain `map`.
- `toUpperCase` maps ASCII letters only. Characters whose upper case
  differs outside ASCII, or expands to several characters, are left as
  written.
- Strings are sequences of Unicode scalar values, not UTF-16 code units.
- The interpreter's `finalState` is computed (`InterpretFrom`), but
  `structuredClone` is modelled as plain value copying.
- `loadMachineModel` is a `JSON.parse` wrapper and is not modelled.
- `app.js` and `app/viewer/main.js` are DOM, canvas, `fetch` and download
  wiring and are not part of this model.
- `cross` in `core/collision/triangle.js` is unused by the source. The
  model's `Cross` is used only in proofs.
- Axis limits other than `maxVelocity` are not read by the core and are not
  in `AxisLimits`.
- `GcodeParser.RemoveSpaces`: the contract does not state that the
  non-whitespace characters are kept in order. That follows from the body,
  and `ParseBlock`'s contract relies on the function itself.
- `Triangle.SeparatedExample`: stated for any two unit right triangles
  two units apart, not for one fixed pair.
- `MotionPlanner.MoveDuration`: the contract states only positivity. The
  exact value is pinned by `ExampleDuration` and used through
  `MoveSamplesShape`.

## Behaviour worth knowing

- The interpreter recognises only G0 and G1 as motion modes. G2 and G3
  (arcs) are unsupported codes and produce a warning.
- The collision detector checks travel against `machine.envelope`, not
  against per-axis limits.
- Stock removal carves along the samples' `axes`, not their tool-centre
  `position`.
- M6 emits a tool change carrying the block's T word, or the current tool.
- Feeds are in mm/min, and axis maximum velocities in mm/s.
