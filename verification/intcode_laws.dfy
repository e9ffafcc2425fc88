/** What each Intcode instruction does to the machine, stated instruction by
    instruction, and the laws of the run loop built on them. */
module IntcodeLaws {
  import opened Wrappers
  import opened IntcodeDecode
  import opened IntcodeVm

  /** The instructions with two inputs and one write target. */
  predicate IsBinary(op: OpCode)
  {
    op.Add? || op.Multiply? || op.LessThan? || op.Equals?
  }

  /** The value a two-input instruction stores: the sum, the product, or 1/0
      for the comparison. */
  function Combine(op: OpCode, x: int, y: int): int
    requires IsBinary(op)
  {
    match op
    case Add(_, _, _) => x + y
    case Multiply(_, _, _) => x * y
    case LessThan(_, _, _) => if x < y then 1 else 0
    case Equals(_, _, _) => if x == y then 1 else 0
  }

  /** The instruction at the instruction pointer decodes to `op`. */
  predicate At(m: Machine, op: OpCode)
  {
    m.ip < |m.memory| && Decode(m.memory[m.ip]) == Ok(op)
  }

  /** Add, Multiply, LessThan and Equals write exactly one cell, the one the
      third operand names, and advance past their three operands. A third
      operand in immediate mode, or holding a negative address, is an error. */
  lemma BinaryStep(m: Machine, input: seq<int>, output: seq<int>, op: OpCode, x: int, y: int)
    requires At(m, op) && IsBinary(op)
    requires ReadParameter(m.memory, m.ip + 1, op.a) == Ok(x)
    requires ReadParameter(m.memory, m.ip + 2, op.b) == Ok(y)
    ensures var r, at := Cycle(m, input, output), m.ip + 3;
      && (at >= |m.memory| ==> r == Err(IndexOutOfBounds))
      && (at < |m.memory| && op.c == Immediate ==> r == Err(ImmediateModeOutput))
      && (at < |m.memory| && op.c == Reference && m.memory[at] < 0 ==> r == Err(InvalidAddress))
      && (at < |m.memory| && op.c == Reference && m.memory[at] >= |m.memory| ==> r == Err(IndexOutOfBounds))
      && (at < |m.memory| && op.c == Reference && 0 <= m.memory[at] < |m.memory| ==>
            r == Ok(Effect(m.(memory := m.memory[m.memory[at] := Combine(op, x, y)], ip := m.ip + 4), input, output)))
  {
  }

  /** Input with an empty queue suspends: the state becomes `InputRequired`,
      the instruction pointer is rewound to the opcode cell, and memory is
      untouched. With a queued value, the front value is written to the cell
      the operand names and removed from the queue. */
  lemma InputStep(m: Machine, input: seq<int>, output: seq<int>, mode: Mode)
    requires At(m, Input(mode))
    ensures var r, at := Cycle(m, input, output), m.ip + 1;
      && (|input| == 0 ==> r == Ok(Effect(m.(state := InputRequired), input, output)))
      && (|input| > 0 && at >= |m.memory| ==> r == Err(IndexOutOfBounds))
      && (|input| > 0 && at < |m.memory| && mode == Immediate ==> r == Err(ImmediateModeOutput))
      && (|input| > 0 && at < |m.memory| && mode == Reference && m.memory[at] < 0 ==> r == Err(InvalidAddress))
      && (|input| > 0 && at < |m.memory| && mode == Reference && m.memory[at] >= |m.memory| ==> r == Err(IndexOutOfBounds))
      && (|input| > 0 && at < |m.memory| && mode == Reference && 0 <= m.memory[at] < |m.memory| ==>
            r == Ok(Effect(m.(memory := m.memory[m.memory[at] := input[0]], ip := m.ip + 2), input[1..], output)))
  {
  }

  /** Output appends the operand's value to the output and writes nothing. */
  lemma OutputStep(m: Machine, input: seq<int>, output: seq<int>, mode: Mode, v: int)
    requires At(m, Output(mode))
    requires ReadParameter(m.memory, m.ip + 1, mode) == Ok(v)
    ensures Cycle(m, input, output) == Ok(Effect(m.(ip := m.ip + 2), input, output + [v]))
  {
  }

  /** Whether a jump instruction with condition value `cond` is taken. */
  predicate Taken(op: OpCode, cond: int)
    requires op.JumpIfTrue? || op.JumpIfFalse?
  {
    if op.JumpIfTrue? then cond != 0 else cond == 0
  }

  /** JumpIfTrue (JumpIfFalse) moves the instruction pointer to the target when
      the condition is nonzero (zero), and past its two operands otherwise; it
      writes nothing. A taken jump to a negative target is an error. */
  lemma JumpStep(m: Machine, input: seq<int>, output: seq<int>, op: OpCode, cond: int, target: int)
    requires At(m, op) && (op.JumpIfTrue? || op.JumpIfFalse?)
    requires ReadParameter(m.memory, m.ip + 1, op.a) == Ok(cond)
    requires ReadParameter(m.memory, m.ip + 2, op.b) == Ok(target)
    ensures var r := Cycle(m, input, output);
      && (Taken(op, cond) && target < 0 ==> r == Err(InvalidAddress))
      && (Taken(op, cond) && target >= 0 ==> r == Ok(Effect(m.(ip := target), input, output)))
      && (!Taken(op, cond) ==> r == Ok(Effect(m.(ip := m.ip + 3), input, output)))
  {
  }

  /** Exit moves to `Finished` past the opcode cell and changes nothing else. */
  lemma ExitStep(m: Machine, input: seq<int>, output: seq<int>)
    requires At(m, Exit)
    ensures Cycle(m, input, output) == Ok(Effect(m.(ip := m.ip + 1, state := Finished), input, output))
  {
  }

  /** Every instruction that neither jumps nor suspends advances the
      instruction pointer by one plus its operand count. */
  lemma {:induction false} InstructionPointerAdvance(m: Machine, input: seq<int>, output: seq<int>, op: OpCode)
    requires At(m, op) && Cycle(m, input, output).Ok?
    requires !op.JumpIfTrue? && !op.JumpIfFalse? && !(op.Input? && |input| == 0)
    ensures Cycle(m, input, output).value.machine.ip == m.ip + 1 + Arity(Code(op))
  {
    var memory, at := m.memory, m.ip + 1;
    if IsBinary(op) {
      var x := ReadParameter(memory, at, op.a);
      var y := ReadParameter(memory, at + 1, op.b);
      BinaryStep(m, input, output, op, x.value, y.value);
    } else if op.Input? {
      InputStep(m, input, output, op.a);
    } else if op.Output? {
      OutputStep(m, input, output, op.a, ReadParameter(memory, at, op.a).value);
    } else {
      ExitStep(m, input, output);
    }
  }

  /** `m'` equals `m` in every cell but `a`. */
  predicate SameExcept(m: seq<int>, m': seq<int>, a: int)
  {
    |m'| == |m| && forall i :: 0 <= i < |m| && i != a ==> m'[i] == m[i]
  }

  /** No instruction writes more than one cell or changes the memory length;
      Output, the jumps, Exit and a suspending Input write none. */
  lemma OneCellAtMost(m: Machine, input: seq<int>, output: seq<int>)
    requires Cycle(m, input, output).Ok?
    ensures var m' := Cycle(m, input, output).value.machine.memory;
      exists a :: 0 <= a < |m.memory| && SameExcept(m.memory, m', a)
    ensures var op := Decode(m.memory[m.ip]).value;
      (op.Output? || op.JumpIfTrue? || op.JumpIfFalse? || op.Exit? || (op.Input? && |input| == 0)) ==>
        Cycle(m, input, output).value.machine.memory == m.memory
  {
    var op := Decode(m.memory[m.ip]).value;
    if IsBinary(op) || (op.Input? && |input| > 0) {
      WritesOneCell(m, input, output);
    } else {
      WritesNothing(m, input, output);
      assert SameExcept(m.memory, m.memory, m.ip);
    }
  }

  /** The instructions that write: a two-input instruction or an Input with a
      queued value changes the one cell its target operand names. */
  lemma {:induction false} WritesOneCell(m: Machine, input: seq<int>, output: seq<int>)
    requires Cycle(m, input, output).Ok?
    requires var op := Decode(m.memory[m.ip]).value; IsBinary(op) || (op.Input? && |input| > 0)
    ensures var m' := Cycle(m, input, output).value.machine.memory;
      exists a :: 0 <= a < |m.memory| && SameExcept(m.memory, m', a)
  {
    var op := Decode(m.memory[m.ip]).value;
    var m' := Cycle(m, input, output).value.machine.memory;
    if IsBinary(op) {
      var x := ReadParameter(m.memory, m.ip + 1, op.a);
      var y := ReadParameter(m.memory, m.ip + 2, op.b);
      BinaryStep(m, input, output, op, x.value, y.value);
      assert SameExcept(m.memory, m', m.memory[m.ip + 3]);
    } else {
      InputStep(m, input, output, op.a);
      assert SameExcept(m.memory, m', m.memory[m.ip + 2 - 1]);
    }
  }

  /** Output, the jumps, Exit and a suspending Input leave memory as it was. */
  lemma {:induction false} WritesNothing(m: Machine, input: seq<int>, output: seq<int>)
    requires Cycle(m, input, output).Ok?
    requires var op := Decode(m.memory[m.ip]).value;
      op.Output? || op.JumpIfTrue? || op.JumpIfFalse? || op.Exit? || (op.Input? && |input| == 0)
    ensures Cycle(m, input, output).value.machine.memory == m.memory
  {
    var op := Decode(m.memory[m.ip]).value;
    if op.Input? {
      InputStep(m, input, output, op.a);
    }
  }

  /** A step's result with the input queue replaced by `input`. */
  function WithInput(input: seq<int>, r: Result<Effect, Error>): Result<Effect, Error>
  {
    if r.Ok? then Ok(Effect(r.value.machine, input, r.value.output)) else r
  }

  /** A step's result with `o` put in front of its output. */
  function Shifted(o: seq<int>, r: Result<Effect, Error>): Result<Effect, Error>
  {
    if r.Ok? then Ok(Effect(r.value.machine, r.value.input, o + r.value.output)) else r
  }

  /** A step's result with `extra` queued behind whatever input it left. */
  function Extended(extra: seq<int>, r: Result<Effect, Error>): Result<Effect, Error>
  {
    if r.Ok? then Ok(Effect(r.value.machine, r.value.input + extra, r.value.output)) else r
  }

  /** The step stopped to wait for input. */
  predicate Suspends(r: Result<Effect, Error>)
  {
    r.Ok? && r.value.machine.state == InputRequired
  }

  /** An instruction other than Input never looks at the input queue. */
  lemma ExecuteCommandQueueUnused(m: Machine, op: OpCode, input: seq<int>, output: seq<int>)
    requires m.ip >= 1 && !op.Input?
    ensures ExecuteCommand(m, op, input, output) == WithInput(input, ExecuteCommand(m, op, [], output))
  {
    match op {
      case Add(_, _, _) =>
      case Multiply(_, _, _) =>
      case Output(_) =>
      case JumpIfTrue(_, _) =>
      case JumpIfFalse(_, _) =>
      case LessThan(_, _, _) =>
      case Equals(_, _, _) =>
      case Exit =>
    }
  }

  /** The output an instruction produces does not depend on the output before it. */
  lemma ExecuteCommandOutputShift(m: Machine, op: OpCode, input: seq<int>, output: seq<int>)
    requires m.ip >= 1
    ensures ExecuteCommand(m, op, input, output) == Shifted(output, ExecuteCommand(m, op, input, []))
  {
    assert output + [] == output;
    match op {
      case Add(_, _, _) =>
      case Multiply(_, _, _) =>
      case Input(_) =>
      case Output(_) =>
      case JumpIfTrue(_, _) =>
      case JumpIfFalse(_, _) =>
      case LessThan(_, _, _) =>
      case Equals(_, _, _) =>
      case Exit =>
    }
  }

  /** With an empty queue, a cycle of a running machine that does not suspend
      never looks at the queue: with any queue it has the same effect or error. */
  lemma QueueUnused(m: Machine, input: seq<int>, output: seq<int>)
    requires m.state == Running && !Suspends(Cycle(m, [], output))
    ensures Cycle(m, input, output) == WithInput(input, Cycle(m, [], output))
  {
    if m.ip < |m.memory| && Decode(m.memory[m.ip]).Ok? {
      var op := Decode(m.memory[m.ip]).value;
      if op.Input? {
        InputStep(m, [], output, op.a);
        assert false;
      }
      ExecuteCommandQueueUnused(m.(ip := m.ip + 1), op, input, output);
    }
  }

  /** A cycle of a running machine that stops to wait for input changes
      nothing but the state. */
  lemma SuspendInPlace(m: Machine, output: seq<int>)
    requires m.state == Running && Suspends(Cycle(m, [], output))
    ensures Cycle(m, [], output) == Ok(Effect(m.(state := InputRequired), [], output))
  {
    var op := Decode(m.memory[m.ip]).value;
    if op.Input? {
      InputStep(m, [], output, op.a);
    }
  }

  /** Input queued behind the queue a cycle is given is left untouched: a
      cycle of a running machine that does not suspend has the same effect
      with `extra` appended, and leaves `extra` at the back of the queue. */
  lemma QueueExtends(m: Machine, input: seq<int>, output: seq<int>, extra: seq<int>)
    requires m.state == Running && !Suspends(Cycle(m, input, output))
    ensures Cycle(m, input + extra, output) == Extended(extra, Cycle(m, input, output))
  {
    if m.ip < |m.memory| && Decode(m.memory[m.ip]).Ok? {
      var op := Decode(m.memory[m.ip]).value;
      var m' := m.(ip := m.ip + 1);
      if op.Input? {
        InputStep(m, input, output, op.a);
        if |input| == 0 {
          assert false;
        }
        assert (input + extra)[0] == input[0];
        assert (input + extra)[1..] == input[1..] + extra;
        InputStep(m, input + extra, output, op.a);
      } else {
        ExecuteCommandQueueUnused(m', op, input, output);
        ExecuteCommandQueueUnused(m', op, input + extra, output);
      }
    }
  }

  /** A running machine suspends only when its queue is empty, so a call
      that stops to wait for input has used up all the input it was given. */
  lemma SuspendsOnlyWhenEmpty(m: Machine, input: seq<int>, output: seq<int>)
    requires m.state == Running && Suspends(Cycle(m, input, output))
    ensures input == []
  {
    var op := Decode(m.memory[m.ip]).value;
    if op.Input? {
      InputStep(m, input, output, op.a);
    }
  }

  /** The output a cycle produces does not depend on the output before it. */
  lemma CycleOutputShift(m: Machine, input: seq<int>, output: seq<int>)
    ensures Cycle(m, input, output) == Shifted(output, Cycle(m, input, []))
  {
    if m.ip < |m.memory| && Decode(m.memory[m.ip]).Ok? {
      ExecuteCommandOutputShift(m.(ip := m.ip + 1), Decode(m.memory[m.ip]).value, input, output);
    }
  }

  /** What the run-loop laws need of one step at `m`, `input`, `output`: it keeps
      the memory length, only appends to the output, ignores the queue unless
      it suspends, and suspends in place. */
  predicate StepLaws(step: Step, m: Machine, input: seq<int>, output: seq<int>)
  {
    && (step(m, input, output).Ok? ==> |step(m, input, output).value.machine.memory| == |m.memory|)
    && step(m, input, output) == Shifted(output, step(m, input, []))
    && (m.state == Running && !Suspends(step(m, [], output)) ==>
          step(m, input, output) == WithInput(input, step(m, [], output)))
    && (m.state == Running && Suspends(step(m, [], output)) ==>
          step(m, [], output) == Ok(Effect(m.(state := InputRequired), [], output)))
  }

  /** What the resumability law needs of one step: input queued behind the
      step's queue stays queued behind what the step leaves, and the step
      suspends only once its queue is empty. */
  predicate QueueLaws(step: Step, m: Machine, input: seq<int>, output: seq<int>, extra: seq<int>)
  {
    && (m.state == Running && !Suspends(step(m, input, output)) ==>
          step(m, input + extra, output) == Extended(extra, step(m, input, output)))
    && (m.state == Running && Suspends(step(m, input, output)) ==> input == [])
  }

  /** The step keeps its laws at every machine, queue and output. */
  ghost predicate Lawful(step: Step)
  {
    && (forall m, input, output :: StepLaws(step, m, input, output))
    && (forall m, input, output, extra :: QueueLaws(step, m, input, output, extra))
  }

  /** The Intcode cycle keeps the run-loop laws. */
  lemma CycleLawful()
    ensures Lawful(Cycle)
  {
    forall m, input, output ensures StepLaws(Cycle, m, input, output) {
      CycleOutputShift(m, input, output);
      if m.state == Running && !Suspends(Cycle(m, [], output)) {
        QueueUnused(m, input, output);
      }
      if m.state == Running && Suspends(Cycle(m, [], output)) {
        SuspendInPlace(m, output);
      }
    }
    forall m, input, output, extra ensures QueueLaws(Cycle, m, input, output, extra) {
      if m.state == Running && !Suspends(Cycle(m, input, output)) {
        QueueExtends(m, input, output, extra);
      }
      if m.state == Running && Suspends(Cycle(m, input, output)) {
        SuspendsOnlyWhenEmpty(m, input, output);
      }
    }
  }

  /** `o` put in front of the output of a finished run. */
  function Prefixed(o: seq<int>, r: Outcome): Outcome
  {
    if r.Done? then Done(r.machine, o + r.output) else r
  }

  /** The run loop only appends to the output it started with. */
  lemma {:induction false} RunOutputShift(step: Step, m: Machine, input: seq<int>, output: seq<int>, fuel: nat)
    requires Lawful(step)
    ensures Run(step, m, input, output, fuel) == Prefixed(output, Run(step, m, input, [], fuel))
    decreases fuel
  {
    if m.state == Running && fuel > 0 {
      assert StepLaws(step, m, input, output);
      var c := step(m, input, []);
      if c.Ok? {
        var e := c.value;
        RunOutputShift(step, e.machine, e.input, e.output, fuel - 1);
        RunOutputShift(step, e.machine, e.input, output + e.output, fuel - 1);
      }
    } else if m.state != Running {
      assert output + [] == output;
    }
  }

  /** The run loop keeps the memory length and stops only outside `Running`. */
  lemma {:induction false} RunKeepsLength(step: Step, m: Machine, input: seq<int>, output: seq<int>, fuel: nat)
    requires Lawful(step)
    ensures var r := Run(step, m, input, output, fuel);
      && (r.Done? ==> |r.machine.memory| == |m.memory| && r.machine.state != Running)
      && (r.Failed? ==> |r.memory| == |m.memory|)
    decreases fuel
  {
    if m.state == Running && fuel > 0 {
      assert StepLaws(step, m, input, output);
      var c := step(m, input, output);
      if c.Ok? {
        RunKeepsLength(step, c.value.machine, c.value.input, c.value.output, fuel - 1);
      }
    }
  }

  /** More fuel does not change the end of a run that already ended. */
  lemma {:induction false} FuelMonotone(step: Step, m: Machine, input: seq<int>, output: seq<int>, fuel: nat, more: nat)
    requires Run(step, m, input, output, fuel) != OutOfFuel
    requires fuel <= more
    ensures Run(step, m, input, output, more) == Run(step, m, input, output, fuel)
    decreases fuel
  {
    if m.state == Running {
      match step(m, input, output)
      case Err(_) =>
      case Ok(e) =>
        FuelMonotone(step, e.machine, e.input, e.output, fuel - 1, more - 1);
    }
  }

  /** Suspending for input and resuming later is the same as having the input
      from the start: a run given `pre` that stops waiting for input has used
      up `pre`, and continues (once resumed with `input`) exactly as the run
      that had `pre + input` all along. */
  lemma {:induction false} RunSuspendResume(step: Step, m: Machine, pre: seq<int>, output: seq<int>, fuel: nat, input: seq<int>, fuel2: nat)
    requires Lawful(step)
    requires m.state == Running
    requires Run(step, m, pre, output, fuel).Done? && Run(step, m, pre, output, fuel).machine.state == InputRequired
    ensures var s := Run(step, m, pre, output, fuel);
      Run(step, s.machine.(state := Running), input, s.output, fuel2) != OutOfFuel ==>
        Run(step, m, pre + input, output, fuel + fuel2) == Run(step, s.machine.(state := Running), input, s.output, fuel2)
    decreases fuel
  {
    assert StepLaws(step, m, [], output);
    assert QueueLaws(step, m, pre, output, input);
    var c := step(m, pre, output);
    var e := c.value;
    if Suspends(c) {
      assert pre == [] && pre + input == input;
      assert e.machine.(state := Running) == m;
      if Run(step, m, input, output, fuel2) != OutOfFuel {
        FuelMonotone(step, m, input, output, fuel2, fuel + fuel2);
      }
    } else {
      assert step(m, pre + input, output) == Ok(Effect(e.machine, e.input + input, e.output));
      RunSuspendResume(step, e.machine, e.input, e.output, fuel - 1, input, fuel2);
      assert fuel + fuel2 - 1 == (fuel - 1) + fuel2;
    }
  }

  /** The resumability law for `execute`: if a call given `pre` stops waiting
      for input after printing `s.output`, and a later call with `input` then
      ends with output `t.output`, a single call given `pre + input` from the
      start ends in the same machine with output `s.output + t.output` (or
      fails with the same error). */
  lemma ExecuteSuspendResume(m: Machine, pre: seq<int>, fuel: nat, input: seq<int>, fuel2: nat)
    requires Execute(m, pre, fuel).Done? && Execute(m, pre, fuel).machine.state == InputRequired
    ensures var s, t := Execute(m, pre, fuel), Execute(Execute(m, pre, fuel).machine, input, fuel2);
      && (t.Done? ==> Execute(m, pre + input, fuel + fuel2) == Done(t.machine, s.output + t.output))
      && (t.Failed? ==> Execute(m, pre + input, fuel + fuel2) == t)
  {
    CycleLawful();
    var s := Execute(m, pre, fuel);
    var resumed := s.machine.(state := Running);
    RunOutputShift(Cycle, resumed, input, s.output, fuel2);
    RunSuspendResume(Cycle, m.(state := Running), pre, [], fuel, input, fuel2);
  }

  /** A completed call leaves the memory length unchanged and the machine
      either finished or waiting for input; `finished()` tells the two apart.
      A failed call reports the memory as the failing instruction found it. */
  lemma ExecuteEnds(m: Machine, input: seq<int>, fuel: nat)
    ensures var r := Execute(m, input, fuel);
      && (r.Done? ==> |r.machine.memory| == |m.memory| && (r.machine.state == Finished || r.machine.state == InputRequired))
      && (r.Done? ==> (IsFinished(r.machine) <==> r.machine.state == Finished))
      && (r.Failed? ==> |r.memory| == |m.memory|)
  {
    CycleLawful();
    RunKeepsLength(Cycle, m.(state := Running), input, [], fuel);
  }

  /** Giving a call more fuel does not change a call that already ended. */
  lemma ExecuteFuelMonotone(m: Machine, input: seq<int>, fuel: nat, more: nat)
    requires Execute(m, input, fuel) != OutOfFuel && fuel <= more
    ensures Execute(m, input, more) == Execute(m, input, fuel)
  {
    FuelMonotone(Cycle, m.(state := Running), input, [], fuel, more);
  }
}
