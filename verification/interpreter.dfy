/** The modal interpreter (core/interpreter/index.js): runs the parsed blocks
    in order against one threaded modal state and emits motion, tool-change
    and per-block snapshot commands together with error and warning
    diagnostics. */
module Interpreter {
  import opened Wrappers
  import opened Numbers
  import opened Vectors
  import opened GcodeParser
  import opened ModalState

  datatype Severity = Error | Warning

  datatype Diagnostic = Diagnostic(blockIndex: nat, lineNumber: nat, severity: Severity, message: string)

  datatype Command =
    | Motion(mode: MotionMode, plane: Plane, from: Vec3, to: Vec3, feed: real,
             spindleRpm: real, spindleMode: SpindleMode, workOffset: string,
             blockIndex: nat, lineNumber: nat)
    | ToolChange(tool: real, blockIndex: nat, lineNumber: nat)
    | ModalSnapshot(state: State, blockIndex: nat, lineNumber: nat)

  const MillimetresPerInch: real := 25.4

  /** Converts a programmed length or feed to millimetres. */
  function ToMm(value: real, units: Units): real {
    if units == Inches then value * MillimetresPerInch else value
  }

  // ---------------------------------------------------------------------
  // The word map: first occurrence of each letter wins

  /** The position of the first word with `letter`, or `|words|`. */
  function FirstIndex(words: seq<Word>, letter: char): (k: nat)
    ensures k <= |words|
    ensures k < |words| ==> words[k].letter == letter
    ensures forall j :: 0 <= j < k ==> words[j].letter != letter
  {
    if words == [] then 0
    else if words[0].letter == letter then 0
    else
      var k := FirstIndex(words[1..], letter);
      assert forall j :: 1 <= j < k + 1 ==> words[j] == words[1..][j - 1];
      1 + k
  }

  /** The value the block's word map records for `letter`: that of the first
      word with this letter. */
  function FirstValue(words: seq<Word>, letter: char): (r: Option<real>)
    ensures r.None? <==> forall i :: 0 <= i < |words| ==> words[i].letter != letter
    ensures r.Some? ==> exists i :: 0 <= i < |words| && words[i].letter == letter && r.value == words[i].value
                                 && forall j :: 0 <= j < i ==> words[j].letter != letter
  {
    var k := FirstIndex(words, letter);
    if k < |words| then Some(words[k].value) else None
  }

  /** A later word with the same letter never changes what the map holds. */
  lemma {:induction false} FirstOccurrenceWins(a: seq<Word>, w: Word)
    requires exists i :: 0 <= i < |a| && a[i].letter == w.letter
    ensures FirstValue(a + [w], w.letter) == FirstValue(a, w.letter)
  {
    if a[0].letter != w.letter {
      assert (a + [w])[1..] == a[1..] + [w];
      var i :| 0 <= i < |a| && a[i].letter == w.letter;
      assert a[1..][i - 1] == a[i];
      FirstOccurrenceWins(a[1..], w);
    }
  }

  lemma ConcatAssoc<T>(a: seq<T>, b: seq<T>, c: seq<T>)
    ensures a + (b + c) == (a + b) + c
  {
  }

  // ---------------------------------------------------------------------
  // G and M codes

  function DigitChar(d: nat): char
    requires d < 10
  {
    ('0' as int + d) as char
  }

  function NatToString(n: nat): (r: string)
    ensures |r| >= 1
  {
    if n < 10 then [DigitChar(n)] else NatToString(n / 10) + [DigitChar(n % 10)]
  }

  function IntToString(n: int): string {
    if n < 0 then "-" + NatToString(-n) else NatToString(n)
  }

  /** The code a G or M word selects: its letter followed by its value
      truncated toward zero. */
  function CodeText(letter: char, value: real): string {
    [letter] + IntToString(Trunc(value))
  }

  datatype ModalEffect =
    | SetPlane(plane: Plane)
    | SetUnits(units: Units)
    | SetDistanceMode(distanceMode: DistanceMode)
    | SetFeedMode
    | SetMotionMode(motionMode: MotionMode)
    | SelectWorkOffset
    | SetSpindle(spindleMode: SpindleMode)
    | ChangeTool
    | Unsupported

  /** What a G or M word with truncated value `n` does. */
  function Classify(letter: char, n: int): ModalEffect {
    if letter == 'G' then
      if n == 17 then SetPlane(G17)
      else if n == 18 then SetPlane(G18)
      else if n == 19 then SetPlane(G19)
      else if n == 20 then SetUnits(Inches)
      else if n == 21 then SetUnits(Millimetres)
      else if n == 90 then SetDistanceMode(Absolute)
      else if n == 91 then SetDistanceMode(Incremental)
      else if n == 94 then SetFeedMode
      else if n == 0 then SetMotionMode(Rapid)
      else if n == 1 then SetMotionMode(Linear)
      else if n == 54 then SelectWorkOffset
      else Unsupported
    else if letter == 'M' then
      if n == 3 then SetSpindle(Clockwise)
      else if n == 4 then SetSpindle(CounterClockwise)
      else if n == 5 then SetSpindle(Stopped)
      else if n == 6 then ChangeTool
      else Unsupported
    else Unsupported
  }

  predicate IsModalWord(w: Word) { w.letter == 'G' || w.letter == 'M' }

  function EffectOf(w: Word): ModalEffect {
    Classify(w.letter, Trunc(w.value))
  }

  function ApplyEffect(st: State, e: ModalEffect): (r: State)
    ensures r.tool == st.tool && r.position == st.position
    ensures r.feed == st.feed && r.spindleRpm == st.spindleRpm
  {
    match e
    case SetPlane(p) => st.(plane := p)
    case SetUnits(u) => st.(units := u)
    case SetDistanceMode(d) => st.(distanceMode := d)
    case SetFeedMode => st.(feedMode := UnitsPerMinute)
    case SetMotionMode(m) => st.(motionMode := m)
    case SelectWorkOffset => st.(workOffset := DefaultWorkOffset)
    case SetSpindle(s) => st.(spindleMode := s)
    case ChangeTool => st
    case Unsupported => st
  }

  datatype Step = Step(state: State, commands: seq<Command>, diagnostics: seq<Diagnostic>)

  /** The G/M pass of one block: every G and M word, in the order written.
      A tool change carries the block's T value, or else the tool that was
      active before the block. */
  function ApplyModalWords(st: State, words: seq<Word>, toolWord: Option<real>, blockIndex: nat, lineNumber: nat): (r: Step)
    ensures r.state.tool == st.tool && r.state.position == st.position
    ensures r.state.feed == st.feed && r.state.spindleRpm == st.spindleRpm
    ensures forall c :: c in r.commands ==> c == ToolChange(toolWord.GetOr(st.tool), blockIndex, lineNumber)
    ensures forall d :: d in r.diagnostics ==> d.severity == Warning && d.blockIndex == blockIndex
    decreases |words|
  {
    if words == [] then Step(st, [], [])
    else
      var w := words[0];
      var e := if IsModalWord(w) then EffectOf(w) else Unsupported;
      var cmds := if IsModalWord(w) && e == ChangeTool then [ToolChange(toolWord.GetOr(st.tool), blockIndex, lineNumber)] else [];
      var diags := if IsModalWord(w) && e == Unsupported
                   then [Diagnostic(blockIndex, lineNumber, Warning, "Unsupported modal code " + CodeText(w.letter, w.value))]
                   else [];
      var rest := ApplyModalWords(ApplyEffect(st, e), words[1..], toolWord, blockIndex, lineNumber);
      Step(rest.state, cmds + rest.commands, diags + rest.diagnostics)
  }

  /** Number of words in `words` that are G or M words with the given effect. */
  function CountEffect(words: seq<Word>, e: ModalEffect): nat {
    if words == [] then 0
    else (if IsModalWord(words[0]) && EffectOf(words[0]) == e then 1 else 0) + CountEffect(words[1..], e)
  }

  /** Every M6 emits one tool change and every unrecognised G or M code one
      warning, whatever else the block holds. */
  lemma {:induction false} ModalWordCounts(st: State, words: seq<Word>, toolWord: Option<real>, blockIndex: nat, lineNumber: nat)
    ensures |ApplyModalWords(st, words, toolWord, blockIndex, lineNumber).commands| == CountEffect(words, ChangeTool)
    ensures |ApplyModalWords(st, words, toolWord, blockIndex, lineNumber).diagnostics| == CountEffect(words, Unsupported)
    decreases |words|
  {
    if words != [] {
      var w := words[0];
      var e := if IsModalWord(w) then EffectOf(w) else Unsupported;
      ModalWordCounts(ApplyEffect(st, e), words[1..], toolWord, blockIndex, lineNumber);
    }
  }

  /** G and M words act in the order written: the pass over `a + b` is the
      pass over `a` followed by the pass over `b` from the state it left. */
  lemma {:induction false} ModalWordsInOrder(st: State, a: seq<Word>, b: seq<Word>, toolWord: Option<real>, blockIndex: nat, lineNumber: nat)
    ensures var ra := ApplyModalWords(st, a, toolWord, blockIndex, lineNumber);
            var rb := ApplyModalWords(ra.state, b, toolWord, blockIndex, lineNumber);
            ApplyModalWords(st, a + b, toolWord, blockIndex, lineNumber)
              == Step(rb.state, ra.commands + rb.commands, ra.diagnostics + rb.diagnostics)
    decreases |a|
  {
    if a == [] {
      assert a + b == b;
    } else {
      var w := a[0];
      var e := if IsModalWord(w) then EffectOf(w) else Unsupported;
      var st1 := ApplyEffect(st, e);
      assert (a + b)[0] == w;
      assert (a + b)[1..] == a[1..] + b;
      ModalWordsInOrder(st1, a[1..], b, toolWord, blockIndex, lineNumber);
      var ra' := ApplyModalWords(st1, a[1..], toolWord, blockIndex, lineNumber);
      var ra := ApplyModalWords(st, a, toolWord, blockIndex, lineNumber);
      assert ra.state == ra'.state;
      var rb := ApplyModalWords(ra.state, b, toolWord, blockIndex, lineNumber);
      var whole := ApplyModalWords(st, a + b, toolWord, blockIndex, lineNumber);
      var inner := ApplyModalWords(st1, a[1..] + b, toolWord, blockIndex, lineNumber);
      assert inner == Step(rb.state, ra'.commands + rb.commands, ra'.diagnostics + rb.diagnostics);
      var cmds := ra.commands[..|ra.commands| - |ra'.commands|];
      var diags := ra.diagnostics[..|ra.diagnostics| - |ra'.diagnostics|];
      assert ra.commands == cmds + ra'.commands;
      assert ra.diagnostics == diags + ra'.diagnostics;
      assert whole == Step(inner.state, cmds + inner.commands, diags + inner.diagnostics);
      ConcatAssoc(cmds, ra'.commands, rb.commands);
      ConcatAssoc(diags, ra'.diagnostics, rb.diagnostics);
    }
  }

  /** The motion mode a run of words leaves: the mode of its last G0 or G1
      word, or `current` when it has none. */
  function LastMotionMode(words: seq<Word>, current: MotionMode): MotionMode {
    if words == [] then current
    else
      var w := words[|words| - 1];
      if IsModalWord(w) && EffectOf(w).SetMotionMode? then EffectOf(w).motionMode
      else LastMotionMode(words[..|words| - 1], current)
  }

  /** The G/M pass leaves the motion mode of the last G0 or G1 word, and
      keeps the mode in force when there is none. */
  lemma {:induction false} MotionModeIsLastWritten(st: State, words: seq<Word>, toolWord: Option<real>,
                                                   blockIndex: nat, lineNumber: nat)
    ensures ApplyModalWords(st, words, toolWord, blockIndex, lineNumber).state.motionMode
            == LastMotionMode(words, st.motionMode)
    decreases |words|
  {
    if words != [] {
      var init, w := words[..|words| - 1], words[|words| - 1];
      assert words == init + [w];
      ModalWordsInOrder(st, init, [w], toolWord, blockIndex, lineNumber);
      MotionModeIsLastWritten(st, init, toolWord, blockIndex, lineNumber);
      assert [w][0] == w && [w][1..] == [];
    }
  }

  // ---------------------------------------------------------------------
  // One block

  predicate HasMotionTarget(words: seq<Word>) {
    FirstValue(words, 'X').Some? || FirstValue(words, 'Y').Some? || FirstValue(words, 'Z').Some?
  }

  /** One axis of `nextPosition`: a named axis takes the converted value in
      G90 and adds it in G91; an unnamed axis keeps its value. */
  function AxisTarget(current: real, word: Option<real>, st: State): real {
    match word
    case None => current
    case Some(v) =>
      var mm := ToMm(v, st.units);
      if st.distanceMode == Absolute then mm else current + mm
  }

  function NextPosition(st: State, words: seq<Word>): Vec3 {
    Vec3(AxisTarget(st.position.x, FirstValue(words, 'X'), st),
         AxisTarget(st.position.y, FirstValue(words, 'Y'), st),
         AxisTarget(st.position.z, FirstValue(words, 'Z'), st))
  }

  function JoinWith(parts: seq<string>, sep: string): string {
    if parts == [] then [] else if |parts| == 1 then parts[0] else parts[0] + sep + JoinWith(parts[1..], sep)
  }

  predicate Executable(b: Block) { b.errors == [] && b.words != [] }

  /** The body of the `forEach` over blocks. A skipped block leaves the
      state alone and emits nothing; a block with syntax errors reports one
      error; an executed block reports only warnings and ends with a
      snapshot of the state it leaves. */
  function InterpretBlock(st: State, block: Block, blockIndex: nat): (r: Step)
    ensures !Executable(block) ==> r.state == st && r.commands == []
    ensures block.errors != [] ==> |r.diagnostics| == 1 && r.diagnostics[0].severity == Error
    ensures block.errors == [] ==> forall d :: d in r.diagnostics ==> d.severity == Warning
    ensures forall d :: d in r.diagnostics ==> d.blockIndex == blockIndex
    ensures Executable(block) ==>
              |r.commands| >= 1 && r.commands[|r.commands| - 1] == ModalSnapshot(r.state, blockIndex, block.lineNumber)
  {
    var ln := block.lineNumber;
    if block.words == [] && block.errors == [] then Step(st, [], [])
    else if block.errors != [] then
      Step(st, [], [Diagnostic(blockIndex, ln, Error, JoinWith(block.errors, "; "))])
    else
      var words := block.words;
      var modal := ApplyModalWords(st, words, FirstValue(words, 'T'), blockIndex, ln);
      var s1 := modal.state;
      var f := FirstValue(words, 'F');
      var s := FirstValue(words, 'S');
      var t := FirstValue(words, 'T');
      var s2 := s1.(feed := if f.Some? then ToMm(f.value, s1.units) else s1.feed,
                    spindleRpm := s.GetOr(s1.spindleRpm),
                    tool := t.GetOr(s1.tool));
      if HasMotionTarget(words) then
        var to := NextPosition(s2, words);
        var s3 := s2.(position := to);
        var motion := Motion(s3.motionMode, s3.plane, s2.position, to, s3.feed, s3.spindleRpm,
                             s3.spindleMode, s3.workOffset, blockIndex, ln);
        Step(s3, modal.commands + [motion, ModalSnapshot(s3, blockIndex, ln)], modal.diagnostics)
      else
        Step(s2, modal.commands + [ModalSnapshot(s2, blockIndex, ln)], modal.diagnostics)
  }

  /** A blank block does nothing; a block with syntax errors yields one error
      diagnostic and leaves the state alone. */
  lemma SkippedBlocks(st: State, block: Block, blockIndex: nat)
    ensures block.words == [] && block.errors == [] ==>
              InterpretBlock(st, block, blockIndex) == Step(st, [], [])
    ensures block.errors != [] ==>
              InterpretBlock(st, block, blockIndex)
                == Step(st, [], [Diagnostic(blockIndex, block.lineNumber, Error, JoinWith(block.errors, "; "))])
  {
  }

  /** An executed block ends with exactly one snapshot, equal to the state
      after the block, preceded by the block's tool changes and by a motion
      from the old to the new position exactly when X, Y or Z is present. */
  lemma ExecutedBlockCommands(st: State, block: Block, blockIndex: nat)
    requires Executable(block)
    ensures var r := InterpretBlock(st, block, blockIndex);
            && |r.commands| >= 1
            && r.commands[|r.commands| - 1] == ModalSnapshot(r.state, blockIndex, block.lineNumber)
            && (forall i :: 0 <= i < |r.commands| - 1 ==> !r.commands[i].ModalSnapshot?)
            && ((exists i :: 0 <= i < |r.commands| && r.commands[i].Motion?) <==> HasMotionTarget(block.words))
            && (forall i :: 0 <= i < |r.commands| && r.commands[i].Motion? ==>
                  r.commands[i].from == st.position && r.commands[i].to == r.state.position
                  && r.commands[i].mode == r.state.motionMode && r.commands[i].feed == r.state.feed)
            && (!HasMotionTarget(block.words) ==> r.state.position == st.position)
            && (forall d :: d in r.diagnostics ==> d.severity == Warning)
  {
    var r := InterpretBlock(st, block, blockIndex);
    var modal := ApplyModalWords(st, block.words, FirstValue(block.words, 'T'), blockIndex, block.lineNumber);
    assert forall i :: 0 <= i < |modal.commands| ==> modal.commands[i] in modal.commands;
    var n := |modal.commands|;
    assert forall i :: 0 <= i < n ==> r.commands[i] == modal.commands[i];
    if HasMotionTarget(block.words) {
      assert r.commands[n].Motion?;
    } else {
      assert |r.commands| == n + 1;
    }
  }

  /** The feed is converted with the units in force after all of the
      block's G codes; S and T are stored as written; the modal G/M pass
      never moves the tool. */
  lemma ExecutedBlockSettings(st: State, block: Block, blockIndex: nat)
    requires Executable(block)
    ensures var r := InterpretBlock(st, block, blockIndex);
            var m := ApplyModalWords(st, block.words, FirstValue(block.words, 'T'), blockIndex, block.lineNumber);
            && r.state.units == m.state.units && r.state.distanceMode == m.state.distanceMode
            && r.state.motionMode == m.state.motionMode && r.state.plane == m.state.plane
            && r.state.feed == (match FirstValue(block.words, 'F')
                                case Some(f) => ToMm(f, r.state.units)
                                case None => st.feed)
            && r.state.spindleRpm == FirstValue(block.words, 'S').GetOr(st.spindleRpm)
            && r.state.tool == FirstValue(block.words, 'T').GetOr(st.tool)
            && r.commands[..|m.commands|] == m.commands
            && r.diagnostics == m.diagnostics
  {
  }

  /** Each axis of the new position follows the G90/G91 rule in the units
      and distance mode the block leaves in force. */
  lemma ExecutedBlockPosition(st: State, block: Block, blockIndex: nat)
    requires Executable(block)
    ensures var r := InterpretBlock(st, block, blockIndex);
            && r.state.position.x == AxisTarget(st.position.x, FirstValue(block.words, 'X'), r.state)
            && r.state.position.y == AxisTarget(st.position.y, FirstValue(block.words, 'Y'), r.state)
            && r.state.position.z == AxisTarget(st.position.z, FirstValue(block.words, 'Z'), r.state)
  {
  }

  /** The motion mode is modal: an executed block runs in the mode of its
      last G0 or G1 word, and in the mode of the blocks before it when it
      has none. */
  lemma ModalMotionPersists(st: State, block: Block, blockIndex: nat)
    requires Executable(block)
    ensures InterpretBlock(st, block, blockIndex).state.motionMode == LastMotionMode(block.words, st.motionMode)
  {
    ExecutedBlockSettings(st, block, blockIndex);
    MotionModeIsLastWritten(st, block.words, FirstValue(block.words, 'T'), blockIndex, block.lineNumber);
  }

  /** Every tool change of a block carries the block's first T value, or the
      tool active before the block when it has none. */
  lemma ToolChangeCarriesTool(st: State, block: Block, blockIndex: nat)
    requires Executable(block)
    ensures var r := InterpretBlock(st, block, blockIndex);
            forall c :: c in r.commands && c.ToolChange? ==>
              c.tool == FirstValue(block.words, 'T').GetOr(st.tool)
  {
    var modal := ApplyModalWords(st, block.words, FirstValue(block.words, 'T'), blockIndex, block.lineNumber);
    var r := InterpretBlock(st, block, blockIndex);
    forall c | c in r.commands && c.ToolChange?
      ensures c.tool == FirstValue(block.words, 'T').GetOr(st.tool)
    {
      assert c in modal.commands;
    }
  }

  // ---------------------------------------------------------------------
  // The whole program

  datatype Outcome = Outcome(commands: seq<Command>, diagnostics: seq<Diagnostic>, finalState: State)

  /** Runs the per-block step `f` over `blocks`, the first of which has
      index `first`, threading the modal state from `st` and collecting
      commands and diagnostics in block order. */
  function RunFrom(f: (State, Block, nat) -> Step, st: State, blocks: seq<Block>, first: nat): Outcome
    decreases |blocks|
  {
    if blocks == [] then Outcome([], [], st)
    else
      var step := f(st, blocks[0], first);
      Cons(step, RunFrom(f, step.state, blocks[1..], first + 1))
  }

  /** One block's step followed by the rest of the run. */
  function Cons(step: Step, rest: Outcome): Outcome {
    Outcome(step.commands + rest.commands, step.diagnostics + rest.diagnostics, rest.finalState)
  }

  /** Two runs one after the other. */
  function Append(x: Outcome, y: Outcome): Outcome {
    Outcome(x.commands + y.commands, x.diagnostics + y.diagnostics, y.finalState)
  }

  /** Running `a + b` is running `a` and then `b` from the state `a` left,
      whatever the per-block step. */
  lemma {:induction false} RunPrefix(f: (State, Block, nat) -> Step, st: State, a: seq<Block>, b: seq<Block>, first: nat)
    ensures var ra := RunFrom(f, st, a, first);
            RunFrom(f, st, a + b, first) == Append(ra, RunFrom(f, ra.finalState, b, first + |a|))
    decreases |a|
  {
    if a == [] {
      assert a + b == b;
    } else {
      assert (a + b)[0] == a[0];
      assert (a + b)[1..] == a[1..] + b;
      var step := f(st, a[0], first);
      var ra' := RunFrom(f, step.state, a[1..], first + 1);
      var rb := RunFrom(f, ra'.finalState, b, first + |a|);
      RunPrefix(f, step.state, a[1..], b, first + 1);
      ConcatAssoc(step.commands, ra'.commands, rb.commands);
      ConcatAssoc(step.diagnostics, ra'.diagnostics, rb.diagnostics);
    }
  }

  /** Interprets `blocks`, the first of which has index `first`, from `st`. */
  function InterpretFrom(st: State, blocks: seq<Block>, first: nat): Outcome {
    RunFrom(InterpretBlock, st, blocks, first)
  }

  /** `interpretBlocks`: the blocks in order from the initial state. The
      motions it emits form one continuous path from the origin to the
      final position. */
  function InterpretBlocks(blocks: seq<Block>): (r: Outcome)
    ensures Chained(Motions(r.commands), Initial().position, r.finalState.position)
    ensures blocks == [] ==> r == Outcome([], [], Initial())
  {
    ProgramMotionsChained(Initial(), blocks, 0);
    InterpretFrom(Initial(), blocks, 0)
  }

  /** Replaying a program block by block arrives where a batch run does:
      interpreting `a + b` is interpreting `a` and then `b` from the state
      `a` left. */
  lemma InterpretPrefix(st: State, a: seq<Block>, b: seq<Block>, first: nat)
    ensures var ra := InterpretFrom(st, a, first);
            var rb := InterpretFrom(ra.finalState, b, first + |a|);
            InterpretFrom(st, a + b, first)
              == Outcome(ra.commands + rb.commands, ra.diagnostics + rb.diagnostics, rb.finalState)
  {
    RunPrefix(InterpretBlock, st, a, b, first);
  }

  function Motions(cmds: seq<Command>): (r: seq<Command>)
    ensures forall i :: 0 <= i < |r| ==> r[i].Motion?
  {
    if cmds == [] then []
    else (if cmds[0].Motion? then [cmds[0]] else []) + Motions(cmds[1..])
  }

  lemma {:induction false} MotionsAppend(a: seq<Command>, b: seq<Command>)
    ensures Motions(a + b) == Motions(a) + Motions(b)
  {
    if a == [] {
      assert a + b == b;
    } else {
      assert (a + b)[0] == a[0];
      assert (a + b)[1..] == a[1..] + b;
      MotionsAppend(a[1..], b);
    }
  }

  /** The motions form a continuous path from `start` to `end`: each starts
      where the previous one ended. */
  predicate Chained(ms: seq<Command>, start: Vec3, end: Vec3)
    requires forall i :: 0 <= i < |ms| ==> ms[i].Motion?
  {
    if ms == [] then start == end
    else ms[0].from == start && Chained(ms[1..], ms[0].to, end)
  }

  lemma {:induction false} ChainedAppend(a: seq<Command>, b: seq<Command>, start: Vec3, mid: Vec3, end: Vec3)
    requires forall i :: 0 <= i < |a| ==> a[i].Motion?
    requires forall i :: 0 <= i < |b| ==> b[i].Motion?
    requires Chained(a, start, mid) && Chained(b, mid, end)
    ensures Chained(a + b, start, end)
  {
    if a != [] {
      assert (a + b)[0] == a[0];
      assert (a + b)[1..] == a[1..] + b;
      ChainedAppend(a[1..], b, a[0].to, mid, end);
    } else {
      assert a + b == b;
    }
  }

  lemma BlockMotionsChained(st: State, block: Block, blockIndex: nat)
    ensures var r := InterpretBlock(st, block, blockIndex);
            Chained(Motions(r.commands), st.position, r.state.position)
  {
    var r := InterpretBlock(st, block, blockIndex);
    if Executable(block) {
      var modal := ApplyModalWords(st, block.words, FirstValue(block.words, 'T'), blockIndex, block.lineNumber);
      assert Motions(modal.commands) == [] by {
        NoMotionsAmongToolChanges(modal.commands, FirstValue(block.words, 'T').GetOr(st.tool), blockIndex, block.lineNumber);
      }
      var tail := r.commands[|modal.commands|..];
      assert r.commands == modal.commands + tail;
      MotionsAppend(modal.commands, tail);
      if HasMotionTarget(block.words) {
        assert tail == [tail[0]] + [tail[1]];
        MotionsAppend([tail[0]], [tail[1]]);
      } else {
        assert tail == [tail[0]];
      }
    }
  }

  lemma {:induction false} NoMotionsAmongToolChanges(cmds: seq<Command>, tool: real, blockIndex: nat, lineNumber: nat)
    requires forall c :: c in cmds ==> c == ToolChange(tool, blockIndex, lineNumber)
    ensures Motions(cmds) == []
  {
    if cmds != [] {
      assert cmds[0] in cmds;
      assert forall c :: c in cmds[1..] ==> c in cmds;
      NoMotionsAmongToolChanges(cmds[1..], tool, blockIndex, lineNumber);
    }
  }

  /** Across a whole program the motion commands form one continuous path
      from the starting position to the final position. */
  lemma {:induction false} ProgramMotionsChained(st: State, blocks: seq<Block>, first: nat)
    ensures var out := InterpretFrom(st, blocks, first);
            Chained(Motions(out.commands), st.position, out.finalState.position)
    decreases |blocks|
  {
    if blocks != [] {
      var step := InterpretBlock(st, blocks[0], first);
      var rest := InterpretFrom(step.state, blocks[1..], first + 1);
      BlockMotionsChained(st, blocks[0], first);
      ProgramMotionsChained(step.state, blocks[1..], first + 1);
      MotionsAppend(step.commands, rest.commands);
      ChainedAppend(Motions(step.commands), Motions(rest.commands), st.position, step.state.position, rest.finalState.position);
    }
  }
}
