/** The source's unit tests, its error cases, suspension for input and a
    two-machine pipe, as concrete runs of the model. */
module IntcodeVectors {
  import opened Wrappers
  import opened IntcodeDecode
  import opened IntcodeVm
  import IntcodeLaws
  import IntcodePipe

  /** A raw value that is the canonical encoding of `op` decodes to `op`. */
  lemma DecodeAs(op: OpCode, raw: int)
    requires Encode(op) == raw
    ensures Decode(raw) == Ok(op)
  {
    DecodeEncode(op);
  }

  /** One turn of the run loop, for walking a concrete run cycle by cycle. */
  lemma Unroll(m: Machine, input: seq<int>, output: seq<int>, fuel: nat, e: Effect)
    requires m.state == Running && fuel > 0 && Cycle(m, input, output) == Ok(e)
    ensures Run(Cycle, m, input, output, fuel) == Run(Cycle, e.machine, e.input, e.output, fuel - 1)
  {
  }

  /** The last turn of a run: a halt at the pointer ends the call. */
  lemma Halt(m: Machine, output: seq<int>, fuel: nat)
    requires m.state == Running && fuel > 0 && m.ip < |m.memory| && m.memory[m.ip] == 99
    ensures Run(Cycle, m, [], output, fuel) == Done(m.(ip := m.ip + 1, state := Finished), output)
  {
    DecodeAs(Exit, 99);
    IntcodeLaws.ExitStep(m, [], output);
    Unroll(m, [], output, fuel, Effect(m.(ip := m.ip + 1, state := Finished), [], output));
  }

  /** The add of `1,0,0,0,99` doubles cell 0. */
  lemma AddAndHaltAdd(m: Machine)
    requires m == Machine([1, 0, 0, 0, 99], 0, Running)
    ensures Cycle(m, [], [])
      == Ok(Effect(Machine([2, 0, 0, 0, 99], 4, Running), [], []))
  {
    DecodeAs(Add(Reference, Reference, Reference), 1);
    IntcodeLaws.BinaryStep(m, [], [], Add(Reference, Reference, Reference), 1, 1);
    assert m.memory[0 := 2] == [2, 0, 0, 0, 99];
  }

  /** Program `1,0,0,0,99` adds cell 0 to itself and halts. */
  lemma AddAndHalt()
    ensures Execute(New([1, 0, 0, 0, 99]), [], 5) == Done(Machine([2, 0, 0, 0, 99], 5, Finished), [])
  {
    AddAndHaltAdd(Machine([1, 0, 0, 0, 99], 0, Running));
    Unroll(Machine([1, 0, 0, 0, 99], 0, Running), [], [], 5, Effect(Machine([2, 0, 0, 0, 99], 4, Running), [], []));
    Halt(Machine([2, 0, 0, 0, 99], 4, Running), [], 4);
  }

  /** The multiply of `2,3,0,3,99` stores 3 * 2 in cell 3. */
  lemma MultiplyInPlaceMultiply(m: Machine)
    requires m == Machine([2, 3, 0, 3, 99], 0, Running)
    ensures Cycle(m, [], [])
      == Ok(Effect(Machine([2, 3, 0, 6, 99], 4, Running), [], []))
  {
    DecodeAs(Multiply(Reference, Reference, Reference), 2);
    IntcodeLaws.BinaryStep(m, [], [], Multiply(Reference, Reference, Reference), 3, 2);
    assert m.memory[3 := 6] == [2, 3, 0, 6, 99];
  }

  /** Program `2,3,0,3,99` multiplies cell 3 by cell 0. */
  lemma MultiplyInPlace()
    ensures Execute(New([2, 3, 0, 3, 99]), [], 5) == Done(Machine([2, 3, 0, 6, 99], 5, Finished), [])
  {
    MultiplyInPlaceMultiply(Machine([2, 3, 0, 3, 99], 0, Running));
    Unroll(Machine([2, 3, 0, 3, 99], 0, Running), [], [], 5, Effect(Machine([2, 3, 0, 6, 99], 4, Running), [], []));
    Halt(Machine([2, 3, 0, 6, 99], 4, Running), [], 4);
  }

  /** The multiply of `2,4,4,5,99,0` stores 99 * 99 in cell 5. */
  lemma SquarePastHaltMultiply(m: Machine)
    requires m == Machine([2, 4, 4, 5, 99, 0], 0, Running)
    ensures Cycle(m, [], [])
      == Ok(Effect(Machine([2, 4, 4, 5, 99, 9801], 4, Running), [], []))
  {
    DecodeAs(Multiply(Reference, Reference, Reference), 2);
    IntcodeLaws.BinaryStep(m, [], [], Multiply(Reference, Reference, Reference), 99, 99);
    assert m.memory[5 := 9801] == [2, 4, 4, 5, 99, 9801];
  }

  /** Program `2,4,4,5,99,0` squares cell 4 into the cell past the halt. */
  lemma SquarePastHalt()
    ensures Execute(New([2, 4, 4, 5, 99, 0]), [], 5) == Done(Machine([2, 4, 4, 5, 99, 9801], 5, Finished), [])
  {
    SquarePastHaltMultiply(Machine([2, 4, 4, 5, 99, 0], 0, Running));
    Unroll(Machine([2, 4, 4, 5, 99, 0], 0, Running), [], [], 5, Effect(Machine([2, 4, 4, 5, 99, 9801], 4, Running), [], []));
    Halt(Machine([2, 4, 4, 5, 99, 9801], 4, Running), [], 4);
  }

  /** The first instruction of `1,1,1,4,99,5,6,0,99` turns the halt at cell 4 into a multiply. */
  lemma SelfModifyingAdd(m: Machine)
    requires m == Machine([1, 1, 1, 4, 99, 5, 6, 0, 99], 0, Running)
    ensures Cycle(m, [], [])
      == Ok(Effect(Machine([1, 1, 1, 4, 2, 5, 6, 0, 99], 4, Running), [], []))
  {
    DecodeAs(Add(Reference, Reference, Reference), 1);
    IntcodeLaws.BinaryStep(m, [], [], Add(Reference, Reference, Reference), 1, 1);
    assert m.memory[4 := 2] == [1, 1, 1, 4, 2, 5, 6, 0, 99];
  }

  /** The new multiply at cell 4 writes 5 * 6 into cell 0. */
  lemma SelfModifyingMultiply(m: Machine)
    requires m == Machine([1, 1, 1, 4, 2, 5, 6, 0, 99], 4, Running)
    ensures Cycle(m, [], [])
      == Ok(Effect(Machine([30, 1, 1, 4, 2, 5, 6, 0, 99], 8, Running), [], []))
  {
    DecodeAs(Multiply(Reference, Reference, Reference), 2);
    IntcodeLaws.BinaryStep(m, [], [], Multiply(Reference, Reference, Reference), 5, 6);
    assert m.memory[0 := 30] == [30, 1, 1, 4, 2, 5, 6, 0, 99];
  }

  /** Program `1,1,1,4,99,5,6,0,99` rewrites its own halt into a multiply. */
  lemma SelfModifying()
    ensures Execute(New([1, 1, 1, 4, 99, 5, 6, 0, 99]), [], 5) == Done(Machine([30, 1, 1, 4, 2, 5, 6, 0, 99], 9, Finished), [])
  {
    SelfModifyingAdd(Machine([1, 1, 1, 4, 99, 5, 6, 0, 99], 0, Running));
    Unroll(Machine([1, 1, 1, 4, 99, 5, 6, 0, 99], 0, Running), [], [], 5, Effect(Machine([1, 1, 1, 4, 2, 5, 6, 0, 99], 4, Running), [], []));
    SelfModifyingMultiply(Machine([1, 1, 1, 4, 2, 5, 6, 0, 99], 4, Running));
    Unroll(Machine([1, 1, 1, 4, 2, 5, 6, 0, 99], 4, Running), [], [], 4, Effect(Machine([30, 1, 1, 4, 2, 5, 6, 0, 99], 8, Running), [], []));
    Halt(Machine([30, 1, 1, 4, 2, 5, 6, 0, 99], 8, Running), [], 3);
  }

  /** The multiply of `1002,4,3,4,33` stores 33 times the immediate 3 in cell 4. */
  lemma MixedModesMultiply(m: Machine)
    requires m == Machine([1002, 4, 3, 4, 33], 0, Running)
    ensures Cycle(m, [], [])
      == Ok(Effect(Machine([1002, 4, 3, 4, 99], 4, Running), [], []))
  {
    DecodeAs(Multiply(Reference, Immediate, Reference), 1002);
    IntcodeLaws.BinaryStep(m, [], [], Multiply(Reference, Immediate, Reference), 33, 3);
    assert m.memory[4 := 99] == [1002, 4, 3, 4, 99];
  }

  /** Program `1002,4,3,4,33` multiplies cell 4 by the immediate 3, turning it into a halt. */
  lemma MixedModes()
    ensures Execute(New([1002, 4, 3, 4, 33]), [], 5) == Done(Machine([1002, 4, 3, 4, 99], 5, Finished), [])
  {
    MixedModesMultiply(Machine([1002, 4, 3, 4, 33], 0, Running));
    Unroll(Machine([1002, 4, 3, 4, 33], 0, Running), [], [], 5, Effect(Machine([1002, 4, 3, 4, 99], 4, Running), [], []));
    Halt(Machine([1002, 4, 3, 4, 99], 4, Running), [], 4);
  }

  /** The input of `3,2,0` stores 99 in cell 2. */
  lemma InputRewritesProgramInput(m: Machine)
    requires m == Machine([3, 2, 0], 0, Running)
    ensures Cycle(m, [99], [])
      == Ok(Effect(Machine([3, 2, 99], 2, Running), [], []))
  {
    DecodeAs(Input(Reference), 3);
    IntcodeLaws.InputStep(m, [99], [], Reference);
    assert [99][1..] == [];
    assert m.memory[2 := 99] == [3, 2, 99];
  }

  /** Program `3,2,0` stores its input over its own cell 2, which then halts it. */
  lemma InputRewritesProgram()
    ensures Execute(New([3, 2, 0]), [99], 5) == Done(Machine([3, 2, 99], 3, Finished), [])
  {
    InputRewritesProgramInput(Machine([3, 2, 0], 0, Running));
    Unroll(Machine([3, 2, 0], 0, Running), [99], [], 5, Effect(Machine([3, 2, 99], 2, Running), [], []));
    Halt(Machine([3, 2, 99], 2, Running), [], 4);
  }

  /** The position-mode jump test stores its input 0 in cell 12. */
  lemma JumpPositionModeInput(m: Machine)
    requires m == Machine([3, 12, 6, 12, 15, 1, 13, 14, 13, 4, 13, 99, -1, 0, 1, 9], 0, Running)
    ensures Cycle(m, [0], [])
      == Ok(Effect(Machine([3, 12, 6, 12, 15, 1, 13, 14, 13, 4, 13, 99, 0, 0, 1, 9], 2, Running), [], []))
  {
    DecodeAs(Input(Reference), 3);
    IntcodeLaws.InputStep(m, [0], [], Reference);
    assert [0][1..] == [];
    assert m.memory[12 := 0] == [3, 12, 6, 12, 15, 1, 13, 14, 13, 4, 13, 99, 0, 0, 1, 9];
  }

  /** JumpIfFalse on cell 12 jumps to the target in cell 15. */
  lemma JumpPositionModeJump(m: Machine)
    requires m == Machine([3, 12, 6, 12, 15, 1, 13, 14, 13, 4, 13, 99, 0, 0, 1, 9], 2, Running)
    ensures Cycle(m, [], [])
      == Ok(Effect(Machine([3, 12, 6, 12, 15, 1, 13, 14, 13, 4, 13, 99, 0, 0, 1, 9], 9, Running), [], []))
  {
    DecodeAs(JumpIfFalse(Reference, Reference), 6);
    IntcodeLaws.JumpStep(m, [], [], JumpIfFalse(Reference, Reference), 0, 9);
  }

  /** The Output at cell 9 prints cell 13. */
  lemma JumpPositionModeOutput(m: Machine)
    requires m == Machine([3, 12, 6, 12, 15, 1, 13, 14, 13, 4, 13, 99, 0, 0, 1, 9], 9, Running)
    ensures Cycle(m, [], [])
      == Ok(Effect(Machine([3, 12, 6, 12, 15, 1, 13, 14, 13, 4, 13, 99, 0, 0, 1, 9], 11, Running), [], [0]))
  {
    DecodeAs(Output(Reference), 4);
    IntcodeLaws.OutputStep(m, [], [], Reference, 0);
  }

  /** After storing 0, the position-mode program jumps to the output and halts. */
  lemma JumpPositionModeTail(m: Machine)
    requires m == Machine([3, 12, 6, 12, 15, 1, 13, 14, 13, 4, 13, 99, 0, 0, 1, 9], 2, Running)
    ensures Run(Cycle, m, [], [], 9) == Done(Machine([3, 12, 6, 12, 15, 1, 13, 14, 13, 4, 13, 99, 0, 0, 1, 9], 12, Finished), [0])
  {
    JumpPositionModeJump(m);
    Unroll(m, [], [], 9, Effect(Machine([3, 12, 6, 12, 15, 1, 13, 14, 13, 4, 13, 99, 0, 0, 1, 9], 9, Running), [], []));
    JumpPositionModeOutput(Machine([3, 12, 6, 12, 15, 1, 13, 14, 13, 4, 13, 99, 0, 0, 1, 9], 9, Running));
    Unroll(Machine([3, 12, 6, 12, 15, 1, 13, 14, 13, 4, 13, 99, 0, 0, 1, 9], 9, Running), [], [], 8, Effect(Machine([3, 12, 6, 12, 15, 1, 13, 14, 13, 4, 13, 99, 0, 0, 1, 9], 11, Running), [], [0]));
    Halt(Machine([3, 12, 6, 12, 15, 1, 13, 14, 13, 4, 13, 99, 0, 0, 1, 9], 11, Running), [0], 7);
  }

  /** A position-mode JumpIfFalse program prints 0 for input 0. */
  lemma JumpPositionMode()
    ensures var r := Execute(New([3, 12, 6, 12, 15, 1, 13, 14, 13, 4, 13, 99, -1, 0, 1, 9]), [0], 10);
      r.Done? && r.output == [0] && r.machine.state == Finished
  {
    JumpPositionModeInput(Machine([3, 12, 6, 12, 15, 1, 13, 14, 13, 4, 13, 99, -1, 0, 1, 9], 0, Running));
    Unroll(Machine([3, 12, 6, 12, 15, 1, 13, 14, 13, 4, 13, 99, -1, 0, 1, 9], 0, Running), [0], [], 10, Effect(Machine([3, 12, 6, 12, 15, 1, 13, 14, 13, 4, 13, 99, 0, 0, 1, 9], 2, Running), [], []));
    JumpPositionModeTail(Machine([3, 12, 6, 12, 15, 1, 13, 14, 13, 4, 13, 99, 0, 0, 1, 9], 2, Running));
  }

  /** The immediate-mode jump test stores its input 0 in cell 3. */
  lemma JumpImmediateModeInput(m: Machine)
    requires m == Machine([3, 3, 1105, -1, 9, 1101, 0, 0, 12, 4, 12, 99, 1], 0, Running)
    ensures Cycle(m, [0], [])
      == Ok(Effect(Machine([3, 3, 1105, 0, 9, 1101, 0, 0, 12, 4, 12, 99, 1], 2, Running), [], []))
  {
    DecodeAs(Input(Reference), 3);
    IntcodeLaws.InputStep(m, [0], [], Reference);
    assert [0][1..] == [];
    assert m.memory[3 := 0] == [3, 3, 1105, 0, 9, 1101, 0, 0, 12, 4, 12, 99, 1];
  }

  /** JumpIfTrue on that 0 falls through. */
  lemma JumpImmediateModeJump(m: Machine)
    requires m == Machine([3, 3, 1105, 0, 9, 1101, 0, 0, 12, 4, 12, 99, 1], 2, Running)
    ensures Cycle(m, [], [])
      == Ok(Effect(Machine([3, 3, 1105, 0, 9, 1101, 0, 0, 12, 4, 12, 99, 1], 5, Running), [], []))
  {
    DecodeAs(JumpIfTrue(Immediate, Immediate), 1105);
    IntcodeLaws.JumpStep(m, [], [], JumpIfTrue(Immediate, Immediate), 0, 9);
  }

  /** The add then stores 0 + 0 in cell 12. */
  lemma JumpImmediateModeAdd(m: Machine)
    requires m == Machine([3, 3, 1105, 0, 9, 1101, 0, 0, 12, 4, 12, 99, 1], 5, Running)
    ensures Cycle(m, [], [])
      == Ok(Effect(Machine([3, 3, 1105, 0, 9, 1101, 0, 0, 12, 4, 12, 99, 0], 9, Running), [], []))
  {
    DecodeAs(Add(Immediate, Immediate, Reference), 1101);
    IntcodeLaws.BinaryStep(m, [], [], Add(Immediate, Immediate, Reference), 0, 0);
    assert m.memory[12 := 0] == [3, 3, 1105, 0, 9, 1101, 0, 0, 12, 4, 12, 99, 0];
  }

  /** The Output at cell 9 prints cell 12. */
  lemma JumpImmediateModeOutput(m: Machine)
    requires m == Machine([3, 3, 1105, 0, 9, 1101, 0, 0, 12, 4, 12, 99, 0], 9, Running)
    ensures Cycle(m, [], [])
      == Ok(Effect(Machine([3, 3, 1105, 0, 9, 1101, 0, 0, 12, 4, 12, 99, 0], 11, Running), [], [0]))
  {
    DecodeAs(Output(Reference), 4);
    IntcodeLaws.OutputStep(m, [], [], Reference, 0);
  }

  /** An immediate-mode JumpIfTrue program prints 0 for input 0. */
  lemma JumpImmediateMode()
    ensures var r := Execute(New([3, 3, 1105, -1, 9, 1101, 0, 0, 12, 4, 12, 99, 1]), [0], 10);
      r.Done? && r.output == [0] && r.machine.state == Finished
  {
    JumpImmediateModeInput(Machine([3, 3, 1105, -1, 9, 1101, 0, 0, 12, 4, 12, 99, 1], 0, Running));
    Unroll(Machine([3, 3, 1105, -1, 9, 1101, 0, 0, 12, 4, 12, 99, 1], 0, Running), [0], [], 10, Effect(Machine([3, 3, 1105, 0, 9, 1101, 0, 0, 12, 4, 12, 99, 1], 2, Running), [], []));
    JumpImmediateModeJump(Machine([3, 3, 1105, 0, 9, 1101, 0, 0, 12, 4, 12, 99, 1], 2, Running));
    Unroll(Machine([3, 3, 1105, 0, 9, 1101, 0, 0, 12, 4, 12, 99, 1], 2, Running), [], [], 9, Effect(Machine([3, 3, 1105, 0, 9, 1101, 0, 0, 12, 4, 12, 99, 1], 5, Running), [], []));
    JumpImmediateModeAdd(Machine([3, 3, 1105, 0, 9, 1101, 0, 0, 12, 4, 12, 99, 1], 5, Running));
    Unroll(Machine([3, 3, 1105, 0, 9, 1101, 0, 0, 12, 4, 12, 99, 1], 5, Running), [], [], 8, Effect(Machine([3, 3, 1105, 0, 9, 1101, 0, 0, 12, 4, 12, 99, 0], 9, Running), [], []));
    JumpImmediateModeOutput(Machine([3, 3, 1105, 0, 9, 1101, 0, 0, 12, 4, 12, 99, 0], 9, Running));
    Unroll(Machine([3, 3, 1105, 0, 9, 1101, 0, 0, 12, 4, 12, 99, 0], 9, Running), [], [], 7, Effect(Machine([3, 3, 1105, 0, 9, 1101, 0, 0, 12, 4, 12, 99, 0], 11, Running), [], [0]));
    Halt(Machine([3, 3, 1105, 0, 9, 1101, 0, 0, 12, 4, 12, 99, 0], 11, Running), [0], 6);
  }

  /** The echo program stores its input 7 in cell 0. */
  lemma EchoInput(m: Machine)
    requires m == Machine([3, 0, 4, 0, 99], 0, Running)
    ensures Cycle(m, [7], [])
      == Ok(Effect(Machine([7, 0, 4, 0, 99], 2, Running), [], []))
  {
    DecodeAs(Input(Reference), 3);
    IntcodeLaws.InputStep(m, [7], [], Reference);
    assert [7][1..] == [];
    assert m.memory[0 := 7] == [7, 0, 4, 0, 99];
  }

  /** It then prints cell 0. */
  lemma EchoOutput(m: Machine)
    requires m == Machine([7, 0, 4, 0, 99], 2, Running)
    ensures Cycle(m, [], [])
      == Ok(Effect(Machine([7, 0, 4, 0, 99], 4, Running), [], [7]))
  {
    DecodeAs(Output(Reference), 4);
    IntcodeLaws.OutputStep(m, [], [], Reference, 7);
  }

  /** Program `3,0,4,0,99` echoes its input. */
  lemma Echo()
    ensures Execute(New([3, 0, 4, 0, 99]), [7], 5) == Done(Machine([7, 0, 4, 0, 99], 5, Finished), [7])
  {
    EchoInput(Machine([3, 0, 4, 0, 99], 0, Running));
    Unroll(Machine([3, 0, 4, 0, 99], 0, Running), [7], [], 5, Effect(Machine([7, 0, 4, 0, 99], 2, Running), [], []));
    EchoOutput(Machine([7, 0, 4, 0, 99], 2, Running));
    Unroll(Machine([7, 0, 4, 0, 99], 2, Running), [], [], 4, Effect(Machine([7, 0, 4, 0, 99], 4, Running), [], [7]));
    Halt(Machine([7, 0, 4, 0, 99], 4, Running), [7], 3);
  }

  /** With an empty queue the echo program's Input waits in place. */
  lemma EchoWaits(m: Machine)
    requires m == Machine([3, 0, 4, 0, 99], 0, Running)
    ensures Cycle(m, [], [])
      == Ok(Effect(Machine([3, 0, 4, 0, 99], 0, InputRequired), [], []))
  {
    DecodeAs(Input(Reference), 3);
    IntcodeLaws.InputStep(m, [], [], Reference);
  }

  /** With no input the echo program stops at its Input instruction, memory
      untouched. */
  lemma EchoSuspends()
    ensures Execute(New([3, 0, 4, 0, 99]), [], 5) == Done(Machine([3, 0, 4, 0, 99], 0, InputRequired), [])
  {
    EchoWaits(Machine([3, 0, 4, 0, 99], 0, Running));
    Unroll(Machine([3, 0, 4, 0, 99], 0, Running), [], [], 5, Effect(Machine([3, 0, 4, 0, 99], 0, InputRequired), [], []));
  }

  /** A later call with input finishes the suspended echo program. */
  lemma EchoResumes()
    ensures Execute(Machine([3, 0, 4, 0, 99], 0, InputRequired), [7], 5) == Done(Machine([7, 0, 4, 0, 99], 5, Finished), [7])
  {
    Echo();
  }
  /** An unknown operation fails after the instructions before it took effect. */
  lemma UnknownOperation()
    ensures Execute(New([1, 0, 0, 0, 5000]), [], 5) == Failed(InvalidOpCode(5000), [2, 0, 0, 0, 5000])
  {
  }

  /** A negative raw value is an unknown operation. */
  lemma NegativeOperation()
    ensures Execute(New([-1]), [], 5) == Failed(InvalidOpCode(-1), [-1])
  {
  }

  /** A mode digit of 2 on a used operand is rejected with that digit. */
  lemma BadModeDigit()
    ensures Execute(New([201, 0, 0, 0, 99]), [], 5) == Failed(InvalidParameterMode(2), [201, 0, 0, 0, 99])
  {
  }

  /** A write target in immediate mode is rejected. */
  lemma ImmediateWrite()
    ensures Execute(New([11101, 0, 0, 0, 99]), [], 5) == Failed(ImmediateModeOutput, [11101, 0, 0, 0, 99])
  {
  }

  /** A negative reference and a taken jump to a negative target are invalid addresses. */
  lemma NegativeAddresses()
    ensures Execute(New([1, -1, 0, 0, 99]), [], 5) == Failed(InvalidAddress, [1, -1, 0, 0, 99])
    ensures Execute(New([1105, 1, -5]), [], 5) == Failed(InvalidAddress, [1105, 1, -5])
  {
  }

  /** Running off the end of memory without a halt is an index failure. */
  lemma RunsOffTheEnd()
    ensures Execute(New([1101, 0, 0, 0]), [], 5) == Failed(IndexOutOfBounds, [0, 0, 0, 0])
  {
  }

  /** Resumed after the halt, the Output at cell 1 prints its immediate 7. */
  lemma RerunAfterHaltOutput(m: Machine)
    requires m == Machine([99, 104, 7, 99], 1, Running)
    ensures Cycle(m, [], [])
      == Ok(Effect(Machine([99, 104, 7, 99], 3, Running), [], [7]))
  {
    DecodeAs(Output(Immediate), 104);
    IntcodeLaws.OutputStep(m, [], [], Immediate, 7);
  }

  /** `execute` resets a finished machine to running, so a second call carries
      on from the cell after the halt. */
  lemma RerunAfterHalt()
    ensures Execute(New([99, 104, 7, 99]), [], 5) == Done(Machine([99, 104, 7, 99], 1, Finished), [])
    ensures Execute(Machine([99, 104, 7, 99], 1, Finished), [], 5) == Done(Machine([99, 104, 7, 99], 4, Finished), [7])
  {
    Halt(Machine([99, 104, 7, 99], 0, Running), [], 5);
    RerunAfterHaltOutput(Machine([99, 104, 7, 99], 1, Running));
    Unroll(Machine([99, 104, 7, 99], 1, Running), [], [], 5, Effect(Machine([99, 104, 7, 99], 3, Running), [], [7]));
    Halt(Machine([99, 104, 7, 99], 3, Running), [7], 4);
  }
  /** A halt in the last cell leaves nothing to run on a second call. */
  lemma RerunPastEnd()
    ensures Execute(Machine([99], 1, Finished), [], 5) == Failed(IndexOutOfBounds, [99])
  {
  }

  /** The doubling program stores its input 5 in cell 9. */
  lemma DoubleFiveInput(m: Machine)
    requires m == Machine([3, 9, 102, 2, 9, 9, 4, 9, 99, 0], 0, Running)
    ensures Cycle(m, [5], [])
      == Ok(Effect(Machine([3, 9, 102, 2, 9, 9, 4, 9, 99, 5], 2, Running), [], []))
  {
    DecodeAs(Input(Reference), 3);
    IntcodeLaws.InputStep(m, [5], [], Reference);
    assert [5][1..] == [];
    assert m.memory[9 := 5] == [3, 9, 102, 2, 9, 9, 4, 9, 99, 5];
  }

  /** It multiplies cell 9 by the immediate 2. */
  lemma DoubleFiveMultiply(m: Machine)
    requires m == Machine([3, 9, 102, 2, 9, 9, 4, 9, 99, 5], 2, Running)
    ensures Cycle(m, [], [])
      == Ok(Effect(Machine([3, 9, 102, 2, 9, 9, 4, 9, 99, 10], 6, Running), [], []))
  {
    DecodeAs(Multiply(Immediate, Reference, Reference), 102);
    IntcodeLaws.BinaryStep(m, [], [], Multiply(Immediate, Reference, Reference), 2, 5);
    assert m.memory[9 := 10] == [3, 9, 102, 2, 9, 9, 4, 9, 99, 10];
  }

  /** It prints cell 9. */
  lemma DoubleFiveOutput(m: Machine)
    requires m == Machine([3, 9, 102, 2, 9, 9, 4, 9, 99, 10], 6, Running)
    ensures Cycle(m, [], [])
      == Ok(Effect(Machine([3, 9, 102, 2, 9, 9, 4, 9, 99, 10], 8, Running), [], [10]))
  {
    DecodeAs(Output(Reference), 4);
    IntcodeLaws.OutputStep(m, [], [], Reference, 10);
  }

  /** Program `3,9,102,2,9,9,4,9,99,0` doubles its input, 5 to 10. */
  lemma DoubleFive()
    ensures Execute(New([3, 9, 102, 2, 9, 9, 4, 9, 99, 0]), [5], 5) == Done(Machine([3, 9, 102, 2, 9, 9, 4, 9, 99, 10], 9, Finished), [10])
  {
    DoubleFiveInput(Machine([3, 9, 102, 2, 9, 9, 4, 9, 99, 0], 0, Running));
    Unroll(Machine([3, 9, 102, 2, 9, 9, 4, 9, 99, 0], 0, Running), [5], [], 5, Effect(Machine([3, 9, 102, 2, 9, 9, 4, 9, 99, 5], 2, Running), [], []));
    DoubleFiveMultiply(Machine([3, 9, 102, 2, 9, 9, 4, 9, 99, 5], 2, Running));
    Unroll(Machine([3, 9, 102, 2, 9, 9, 4, 9, 99, 5], 2, Running), [], [], 4, Effect(Machine([3, 9, 102, 2, 9, 9, 4, 9, 99, 10], 6, Running), [], []));
    DoubleFiveOutput(Machine([3, 9, 102, 2, 9, 9, 4, 9, 99, 10], 6, Running));
    Unroll(Machine([3, 9, 102, 2, 9, 9, 4, 9, 99, 10], 6, Running), [], [], 3, Effect(Machine([3, 9, 102, 2, 9, 9, 4, 9, 99, 10], 8, Running), [], [10]));
    Halt(Machine([3, 9, 102, 2, 9, 9, 4, 9, 99, 10], 8, Running), [10], 2);
  }

  /** The add-one program stores its input 10 in cell 9. */
  lemma AddOneTenInput(m: Machine)
    requires m == Machine([3, 9, 101, 1, 9, 9, 4, 9, 99, 0], 0, Running)
    ensures Cycle(m, [10], [])
      == Ok(Effect(Machine([3, 9, 101, 1, 9, 9, 4, 9, 99, 10], 2, Running), [], []))
  {
    DecodeAs(Input(Reference), 3);
    IntcodeLaws.InputStep(m, [10], [], Reference);
    assert [10][1..] == [];
    assert m.memory[9 := 10] == [3, 9, 101, 1, 9, 9, 4, 9, 99, 10];
  }

  /** It adds the immediate 1 to cell 9. */
  lemma AddOneTenAdd(m: Machine)
    requires m == Machine([3, 9, 101, 1, 9, 9, 4, 9, 99, 10], 2, Running)
    ensures Cycle(m, [], [])
      == Ok(Effect(Machine([3, 9, 101, 1, 9, 9, 4, 9, 99, 11], 6, Running), [], []))
  {
    DecodeAs(Add(Immediate, Reference, Reference), 101);
    IntcodeLaws.BinaryStep(m, [], [], Add(Immediate, Reference, Reference), 1, 10);
    assert m.memory[9 := 11] == [3, 9, 101, 1, 9, 9, 4, 9, 99, 11];
  }

  /** It prints cell 9. */
  lemma AddOneTenOutput(m: Machine)
    requires m == Machine([3, 9, 101, 1, 9, 9, 4, 9, 99, 11], 6, Running)
    ensures Cycle(m, [], [])
      == Ok(Effect(Machine([3, 9, 101, 1, 9, 9, 4, 9, 99, 11], 8, Running), [], [11]))
  {
    DecodeAs(Output(Reference), 4);
    IntcodeLaws.OutputStep(m, [], [], Reference, 11);
  }

  /** Program `3,9,101,1,9,9,4,9,99,0` adds one to its input, 10 to 11. */
  lemma AddOneTen()
    ensures Execute(New([3, 9, 101, 1, 9, 9, 4, 9, 99, 0]), [10], 5) == Done(Machine([3, 9, 101, 1, 9, 9, 4, 9, 99, 11], 9, Finished), [11])
  {
    AddOneTenInput(Machine([3, 9, 101, 1, 9, 9, 4, 9, 99, 0], 0, Running));
    Unroll(Machine([3, 9, 101, 1, 9, 9, 4, 9, 99, 0], 0, Running), [10], [], 5, Effect(Machine([3, 9, 101, 1, 9, 9, 4, 9, 99, 10], 2, Running), [], []));
    AddOneTenAdd(Machine([3, 9, 101, 1, 9, 9, 4, 9, 99, 10], 2, Running));
    Unroll(Machine([3, 9, 101, 1, 9, 9, 4, 9, 99, 10], 2, Running), [], [], 4, Effect(Machine([3, 9, 101, 1, 9, 9, 4, 9, 99, 11], 6, Running), [], []));
    AddOneTenOutput(Machine([3, 9, 101, 1, 9, 9, 4, 9, 99, 11], 6, Running));
    Unroll(Machine([3, 9, 101, 1, 9, 9, 4, 9, 99, 11], 6, Running), [], [], 3, Effect(Machine([3, 9, 101, 1, 9, 9, 4, 9, 99, 11], 8, Running), [], [11]));
    Halt(Machine([3, 9, 101, 1, 9, 9, 4, 9, 99, 11], 8, Running), [11], 2);
  }
  /** Piping the doubling program into the add-one program maps 5 to 11. */
  lemma PipeDoubleAddOne()
    ensures var double, addOne := IntcodePipe.Vm(New([3, 9, 102, 2, 9, 9, 4, 9, 99, 0])), IntcodePipe.Vm(New([3, 9, 101, 1, 9, 9, 4, 9, 99, 0]));
      IntcodePipe.ExecuteUnit(Execute, IntcodePipe.Pipe(double, addOne), [5], 5) ==
        IntcodePipe.Ran(IntcodePipe.Pipe(IntcodePipe.Vm(Machine([3, 9, 102, 2, 9, 9, 4, 9, 99, 10], 9, Finished)),
                                         IntcodePipe.Vm(Machine([3, 9, 101, 1, 9, 9, 4, 9, 99, 11], 9, Finished))), [11])
  {
    DoubleFive();
    AddOneTen();
  }
}
