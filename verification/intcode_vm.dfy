/** The Intcode machine: operand resolution, the single-instruction step, and
    the run loop behind `IntCodeMachine::execute`. */
module IntcodeVm {
  import opened Wrappers
  import opened IntcodeDecode

  /** `IntCodeMachineState`. */
  datatype State = InputRequired | Running | Finished

  /** `IntCodeMachine`: its memory, instruction pointer and run state. */
  datatype Machine = Machine(memory: seq<int>, ip: nat, state: State)

  /** What one instruction leaves behind: the machine, the remaining input
      queue, and the output produced so far in this call. */
  datatype Effect = Effect(machine: Machine, input: seq<int>, output: seq<int>)

  /** The end of one `execute` call. A call that fails reports the error and the
      memory as it was when the failing instruction began. `OutOfFuel` only
      marks that the bounded run was cut short; the program has no such state. */
  datatype Outcome =
    | Done(machine: Machine, output: seq<int>)
    | Failed(error: Error, memory: seq<int>)
    | OutOfFuel

  /** `IntCodeMachine::new`. */
  function New(memory: seq<int>): (m: Machine)
    ensures m.memory == memory && m.ip == 0 && m.state == InputRequired
    ensures !IsFinished(m)
  {
    Machine(memory, 0, InputRequired)
  }

  /** `Machine::finished` for a single machine. */
  predicate IsFinished(m: Machine)
  {
    match m.state
    case Finished => true
    case _ => false
  }

  /** `memory[i]`, which panics when `i` is out of range. */
  function Cell(memory: seq<int>, i: int): (r: Result<int, Error>)
    ensures r.Ok? <==> 0 <= i < |memory|
    ensures r.Ok? ==> r.value == memory[i]
    ensures r.Err? ==> r.error == IndexOutOfBounds
  {
    if 0 <= i < |memory| then Ok(memory[i]) else Err(IndexOutOfBounds)
  }

  /** `memory[addr] = value`, which panics when `addr` is out of range. */
  function Store(memory: seq<int>, addr: nat, value: int): (r: Result<seq<int>, Error>)
    ensures r.Ok? <==> addr < |memory|
    ensures r.Ok? ==> |r.value| == |memory| && r.value[addr] == value
    ensures r.Ok? ==> forall i :: 0 <= i < |memory| && i != addr ==> r.value[i] == memory[i]
    ensures r.Err? ==> r.error == IndexOutOfBounds
  {
    if addr < |memory| then Ok(memory[addr := value]) else Err(IndexOutOfBounds)
  }

  /** `isize` to `usize` conversion; `TryFromIntError` becomes `InvalidAddress`. */
  function ToAddress(v: int): (r: Result<nat, Error>)
    ensures r.Ok? <==> v >= 0
    ensures r.Ok? ==> r.value == v
    ensures r.Err? ==> r.error == InvalidAddress
  {
    if v >= 0 then Ok(v) else Err(InvalidAddress)
  }

  /** `read_parameter` for the operand cell at `at`: an immediate operand is the
      cell itself, a reference operand the cell it points to. */
  function ReadParameter(memory: seq<int>, at: nat, mode: Mode): (r: Result<int, Error>)
    ensures r.Ok? <==> at < |memory| && (mode == Reference ==> 0 <= memory[at] < |memory|)
    ensures r.Ok? && mode == Immediate ==> r.value == memory[at]
    ensures r.Ok? && mode == Reference ==> r.value == memory[memory[at]]
    ensures at < |memory| && mode == Reference && memory[at] < 0 ==> r == Err(InvalidAddress)
    ensures at < |memory| && mode == Reference && memory[at] >= |memory| ==> r == Err(IndexOutOfBounds)
    ensures at >= |memory| ==> r == Err(IndexOutOfBounds)
  {
    var current :- Cell(memory, at);
    match mode
    case Immediate => Ok(current)
    case Reference =>
      var addr :- ToAddress(current);
      Cell(memory, addr)
  }

  /** `read_address` for the operand cell at `at`: a write target must be a
      reference operand holding a non-negative address. The address itself is
      not bounds-checked here; the write that uses it is. */
  function ReadAddress(memory: seq<int>, at: nat, mode: Mode): (r: Result<nat, Error>)
    ensures r.Ok? <==> at < |memory| && mode == Reference && memory[at] >= 0
    ensures r.Ok? ==> r.value == memory[at]
    ensures at < |memory| && mode == Immediate ==> r == Err(ImmediateModeOutput)
    ensures at < |memory| && mode == Reference && memory[at] < 0 ==> r == Err(InvalidAddress)
    ensures at >= |memory| ==> r == Err(IndexOutOfBounds)
  {
    var current :- Cell(memory, at);
    match mode
    case Reference => ToAddress(current)
    case Immediate => Err(ImmediateModeOutput)
  }

  /** `execute_command`: applies one decoded instruction. `m.ip` is the cursor
      just past the opcode cell, so the operands sit at `m.ip`, `m.ip + 1`, ... */
  function ExecuteCommand(m: Machine, op: OpCode, input: seq<int>, output: seq<int>): (r: Result<Effect, Error>)
    requires m.ip >= 1
    ensures r.Ok? ==> |r.value.machine.memory| == |m.memory|
    ensures r.Ok? ==> r.value.output == output || (op.Output? && |r.value.output| == |output| + 1 && r.value.output[..|output|] == output)
    ensures r.Ok? ==> r.value.input == input || (op.Input? && |input| > 0 && r.value.input == input[1..])
  {
    var memory, at := m.memory, m.ip;
    match op
    case Exit =>
      Ok(Effect(m.(state := Finished), input, output))
    case Add(a, b, c) =>
      var x :- ReadParameter(memory, at, a);
      var y :- ReadParameter(memory, at + 1, b);
      var addr :- ReadAddress(memory, at + 2, c);
      var memory' :- Store(memory, addr, x + y);
      Ok(Effect(m.(memory := memory', ip := at + 3), input, output))
    case Multiply(a, b, c) =>
      var x :- ReadParameter(memory, at, a);
      var y :- ReadParameter(memory, at + 1, b);
      var addr :- ReadAddress(memory, at + 2, c);
      var memory' :- Store(memory, addr, x * y);
      Ok(Effect(m.(memory := memory', ip := at + 3), input, output))
    case Input(a) =>
      if |input| == 0 then
        Ok(Effect(m.(state := InputRequired, ip := at - 1), input, output))
      else
        var value := input[0];
        var addr :- ReadAddress(memory, at, a);
        var memory' :- Store(memory, addr, value);
        Ok(Effect(m.(memory := memory', ip := at + 1), input[1..], output))
    case Output(a) =>
      var value :- ReadParameter(memory, at, a);
      Ok(Effect(m.(ip := at + 1), input, output + [value]))
    case LessThan(a, b, c) =>
      var x :- ReadParameter(memory, at, a);
      var y :- ReadParameter(memory, at + 1, b);
      var addr :- ReadAddress(memory, at + 2, c);
      var memory' :- Store(memory, addr, if x < y then 1 else 0);
      Ok(Effect(m.(memory := memory', ip := at + 3), input, output))
    case Equals(a, b, c) =>
      var x :- ReadParameter(memory, at, a);
      var y :- ReadParameter(memory, at + 1, b);
      var addr :- ReadAddress(memory, at + 2, c);
      var memory' :- Store(memory, addr, if x == y then 1 else 0);
      Ok(Effect(m.(memory := memory', ip := at + 3), input, output))
    case JumpIfTrue(a, b) =>
      var cond :- ReadParameter(memory, at, a);
      var target :- ReadParameter(memory, at + 1, b);
      if cond != 0 then
        var dest :- ToAddress(target);
        Ok(Effect(m.(ip := dest), input, output))
      else
        Ok(Effect(m.(ip := at + 2), input, output))
    case JumpIfFalse(a, b) =>
      var cond :- ReadParameter(memory, at, a);
      var target :- ReadParameter(memory, at + 1, b);
      if cond == 0 then
        var dest :- ToAddress(target);
        Ok(Effect(m.(ip := dest), input, output))
      else
        Ok(Effect(m.(ip := at + 2), input, output))
  }

  /** One cycle of the `execute` loop: the end-of-memory check, `read_op_code`,
      then `execute_command`. */
  function Cycle(m: Machine, input: seq<int>, output: seq<int>): (r: Result<Effect, Error>)
    ensures m.ip > |m.memory| ==> r == Err(UnexpectedEndOfFile)
    ensures m.ip == |m.memory| ==> r == Err(IndexOutOfBounds)
    ensures m.ip < |m.memory| && Decode(m.memory[m.ip]).Err? ==> r == Err(Decode(m.memory[m.ip]).error)
    ensures r.Ok? ==> |r.value.machine.memory| == |m.memory|
    ensures r.Ok? ==> |output| <= |r.value.output| <= |output| + 1 && r.value.output[..|output|] == output
    ensures r.Ok? ==> r.value.input == input || (|input| > 0 && r.value.input == input[1..])
  {
    if m.ip > |m.memory| then Err(UnexpectedEndOfFile)
    else
      var raw :- Cell(m.memory, m.ip);
      var op :- Decode(raw);
      ExecuteCommand(m.(ip := m.ip + 1), op, input, output)
  }

  /** One cycle of a run loop, as a value the loop can be handed. */
  type Step = (Machine, seq<int>, seq<int>) -> Result<Effect, Error>

  /** The `while let Running` loop of `execute`, bounded by `fuel` cycles and
      written for any cycle function; the machine's loop is `Run(Cycle, ...)`. */
  function Run(step: Step, m: Machine, input: seq<int>, output: seq<int>, fuel: nat): (r: Outcome)
    ensures r.Done? ==> r.machine.state != Running
    decreases fuel
  {
    if m.state != Running then Done(m, output)
    else if fuel == 0 then OutOfFuel
    else
      match step(m, input, output)
      case Err(e) => Failed(e, m.memory)
      case Ok(effect) => Run(step, effect.machine, effect.input, effect.output, fuel - 1)
  }

  /** `Machine::execute` for a single machine: the state is reset to `Running`,
      the output starts empty, and the loop runs until the machine halts or
      waits for input. */
  function Execute(m: Machine, input: seq<int>, fuel: nat): (r: Outcome)
    ensures r.Done? ==> r.machine.state != Running
  {
    Run(Cycle, m.(state := Running), input, [], fuel)
  }
}
