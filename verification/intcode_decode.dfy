/** Intcode instructions: the operations, the operand addressing modes, the
    machine's error conditions, and the decoder from a raw memory cell. */
module IntcodeDecode {
  import opened Wrappers
  import RustInt

  /** How an operand is read: through memory, or as the literal cell value. */
  datatype Mode = Reference | Immediate

  /** A decoded instruction, carrying the mode of each operand it uses. */
  datatype OpCode =
    | Add(a: Mode, b: Mode, c: Mode)
    | Multiply(a: Mode, b: Mode, c: Mode)
    | Input(a: Mode)
    | Output(a: Mode)
    | JumpIfTrue(a: Mode, b: Mode)
    | JumpIfFalse(a: Mode, b: Mode)
    | LessThan(a: Mode, b: Mode, c: Mode)
    | Equals(a: Mode, b: Mode, c: Mode)
    | Exit

  /** `IntCodeError`, plus `IndexOutOfBounds` for the index panic Rust raises
      when `memory[i]` is read or written with `i >= memory.len()`. */
  datatype Error =
    | InvalidOpCode(value: int)
    | InvalidParameterMode(digit: int)
    | InvalidAddress
    | ImmediateModeOutput
    | UnexpectedEndOfFile
    | IndexOutOfBounds

  /** The operation numbers the instruction set defines. */
  predicate IsCode(n: int)
  {
    1 <= n <= 8 || n == 99
  }

  /** How many operands the operation numbered `n` takes. */
  function Arity(n: int): nat
    requires IsCode(n)
  {
    if n == 1 || n == 2 || n == 7 || n == 8 then 3
    else if n == 3 || n == 4 then 1
    else if n == 5 || n == 6 then 2
    else 0
  }

  /** The operation number of an instruction. */
  function Code(op: OpCode): (n: int)
    ensures IsCode(n)
  {
    match op
    case Add(_, _, _) => 1
    case Multiply(_, _, _) => 2
    case Input(_) => 3
    case Output(_) => 4
    case JumpIfTrue(_, _) => 5
    case JumpIfFalse(_, _) => 6
    case LessThan(_, _, _) => 7
    case Equals(_, _, _) => 8
    case Exit => 99
  }

  /** The operand modes of an instruction, first operand first. */
  function Modes(op: OpCode): (ms: seq<Mode>)
    ensures |ms| == Arity(Code(op))
  {
    match op
    case Add(a, b, c) => [a, b, c]
    case Multiply(a, b, c) => [a, b, c]
    case Input(a) => [a]
    case Output(a) => [a]
    case JumpIfTrue(a, b) => [a, b]
    case JumpIfFalse(a, b) => [a, b]
    case LessThan(a, b, c) => [a, b, c]
    case Equals(a, b, c) => [a, b, c]
    case Exit => []
  }

  /** The decimal digit that selects a mode. */
  function ModeDigit(m: Mode): nat
  {
    match m
    case Reference => 0
    case Immediate => 1
  }

  /** `ParameterMode::try_from`. */
  function ModeOf(digit: int): (r: Result<Mode, Error>)
    ensures r.Ok? <==> digit == 0 || digit == 1
    ensures r.Ok? ==> ModeDigit(r.value) == digit
    ensures r.Err? ==> r.error == InvalidParameterMode(digit)
  {
    if digit == 0 then Ok(Reference)
    else if digit == 1 then Ok(Immediate)
    else Err(InvalidParameterMode(digit))
  }

  /** Digit `k` (counting from 0) of `value / 100`, for a non-negative value:
      the mode digit of operand `k + 1`. */
  function ModeDigitAt(value: nat, k: nat): nat
  {
    (value / 100 / RustInt.Pow10(k)) % 10
  }

  /** The `params!(k + 1)` step of the decoder: the mode of operand `k + 1`. */
  function Param(modes: int, k: nat): Result<Mode, Error>
  {
    ModeOf(RustInt.Rem(RustInt.Div(modes, RustInt.Pow10(k)), 10))
  }

  /** `OpCode::try_from`: the operation is `value % 100` (Rust's truncating
      remainder) and the mode of operand `k + 1` is digit `k` of `value / 100`.
      Only the modes of the operands the operation uses are examined, first
      operand first. */
  function Decode(value: int): (r: Result<OpCode, Error>)
    ensures value < 0 ==> r == Err(InvalidOpCode(value))
    ensures r == Err(InvalidOpCode(value)) <==> !IsCode(RustInt.Rem(value, 100))
    ensures r.Ok? <==>
      && value >= 0
      && IsCode(value % 100)
      && forall k :: 0 <= k < Arity(value % 100) ==> ModeDigitAt(value, k) <= 1
    ensures r.Ok? ==>
      && Code(r.value) == value % 100
      && forall k :: 0 <= k < |Modes(r.value)| ==> ModeDigit(Modes(r.value)[k]) == ModeDigitAt(value, k)
  {
    ParamDigits(value);
    var modes := RustInt.Div(value, 100);
    match RustInt.Rem(value, 100)
    case 1 =>
      var a :- Param(modes, 0); var b :- Param(modes, 1); var c :- Param(modes, 2);
      Ok(Add(a, b, c))
    case 2 =>
      var a :- Param(modes, 0); var b :- Param(modes, 1); var c :- Param(modes, 2);
      Ok(Multiply(a, b, c))
    case 3 =>
      var a :- Param(modes, 0);
      Ok(Input(a))
    case 4 =>
      var a :- Param(modes, 0);
      Ok(Output(a))
    case 5 =>
      var a :- Param(modes, 0); var b :- Param(modes, 1);
      Ok(JumpIfTrue(a, b))
    case 6 =>
      var a :- Param(modes, 0); var b :- Param(modes, 1);
      Ok(JumpIfFalse(a, b))
    case 7 =>
      var a :- Param(modes, 0); var b :- Param(modes, 1); var c :- Param(modes, 2);
      Ok(LessThan(a, b, c))
    case 8 =>
      var a :- Param(modes, 0); var b :- Param(modes, 1); var c :- Param(modes, 2);
      Ok(Equals(a, b, c))
    case 99 => Ok(Exit)
    case _ => Err(InvalidOpCode(value))
  }

  /** For a non-negative value, the decoder's `params!` steps read the digits
      of `value / 100`. */
  lemma ParamDigits(value: int)
    ensures value >= 0 ==> forall k :: 0 <= k < 3 ==>
      Param(RustInt.Div(value, 100), k) == ModeOf(ModeDigitAt(value, k))
  {
    if value >= 0 {
      var modes := value / 100;
      assert RustInt.Pow10(0) == 1 && RustInt.Pow10(1) == 10 && RustInt.Pow10(2) == 100;
      assert modes / 10 >= 0 && modes / 100 >= 0;
    }
  }

  /** A valid operation whose operand modes fail to decode reports the mode
      digit of the first operand, left to right, whose digit is neither 0 nor 1. */
  lemma DecodeReportsFirstBadMode(value: int)
    requires value >= 0 && IsCode(value % 100)
    requires Decode(value).Err?
    ensures exists k :: FirstBadModeDigit(value, k) && Decode(value).error == InvalidParameterMode(ModeDigitAt(value, k))
  {
    ParamDigits(value);
    if ModeDigitAt(value, 0) > 1 {
      assert FirstBadModeDigit(value, 0);
    } else if ModeDigitAt(value, 1) > 1 {
      assert FirstBadModeDigit(value, 1);
    } else {
      assert FirstBadModeDigit(value, 2);
    }
  }

  /** Operand `k + 1` is the first operand of the operation in `value` whose
      mode digit is neither 0 nor 1. */
  predicate FirstBadModeDigit(value: nat, k: nat)
    requires IsCode(value % 100)
  {
    && k < Arity(value % 100)
    && ModeDigitAt(value, k) > 1
    && forall j :: 0 <= j < k ==> ModeDigitAt(value, j) <= 1
  }

  /** The canonical raw value of an instruction: the operation number plus
      each operand's mode digit at its decimal position. */
  function Encode(op: OpCode): nat
  {
    Code(op) + 100 * ModeNumber(Modes(op))
  }

  function ModeNumber(ms: seq<Mode>): nat
  {
    if |ms| == 0 then 0 else ModeDigit(ms[0]) + 10 * ModeNumber(ms[1..])
  }

  /** The mode number of at most three modes holds each mode's digit at its position. */
  lemma ModeNumberDigits(ms: seq<Mode>)
    requires |ms| <= 3
    ensures forall k :: 0 <= k < |ms| ==> (ModeNumber(ms) / RustInt.Pow10(k)) % 10 == ModeDigit(ms[k])
  {
    assert RustInt.Pow10(0) == 1 && RustInt.Pow10(1) == 10 && RustInt.Pow10(2) == 100;
    if |ms| == 1 {
      assert ModeNumber(ms) == ModeDigit(ms[0]);
    } else if |ms| == 2 {
      assert ModeNumber(ms[1..]) == ModeDigit(ms[1]);
      assert ModeNumber(ms) == ModeDigit(ms[0]) + 10 * ModeDigit(ms[1]);
    } else if |ms| == 3 {
      assert ModeNumber(ms[1..][1..]) == ModeDigit(ms[2]);
      assert ModeNumber(ms[1..]) == ModeDigit(ms[1]) + 10 * ModeDigit(ms[2]);
      assert ModeNumber(ms) == ModeDigit(ms[0]) + 10 * ModeDigit(ms[1]) + 100 * ModeDigit(ms[2]);
    }
  }

  /** The decoder's `params!` steps read the modes back out of a mode number. */
  lemma ParamModeNumber(ms: seq<Mode>)
    requires |ms| <= 3
    ensures forall k :: 0 <= k < |ms| ==> Param(ModeNumber(ms), k) == Ok(ms[k])
  {
    ModeNumberDigits(ms);
  }

  /** The canonical raw value splits into the operation number and the mode number. */
  lemma EncodeSplits(op: OpCode)
    ensures RustInt.Rem(Encode(op), 100) == Code(op)
    ensures RustInt.Div(Encode(op), 100) == ModeNumber(Modes(op))
  {
  }

  /** Decoding the canonical raw value of an instruction gives the instruction. */
  lemma DecodeEncode(op: OpCode)
    ensures Decode(Encode(op)) == Ok(op)
  {
    EncodeSplits(op);
    ParamModeNumber(Modes(op));
  }
}
