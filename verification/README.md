# Advent of Code 2019 — Intcode machine and puzzle solvers, in Dafny

This project models the core of a set of Advent of Code 2019 solutions written in Rust.

**Intcode machine** (`intcode/src/lib.rs`):
- The loader reads one line of comma-separated `isize` values into memory.
- `OpCode::try_from` decodes an instruction: the operation is `value % 100`, and operand `k` takes its mode from decimal digit `k` of `value / 100`.
- `read_parameter` and `read_address` resolve operands.
- `execute_command` applies one instruction.
- `execute` runs the machine until it halts, or until it stops to wait for input.
- `Pipe` chains two machines, so that the first one's output is the second one's input.

**Puzzle solvers:**
- Crossed wires (day 3): parse two wire paths, walk them point by point, and find the crossing nearest the origin and the crossing with the fewest combined steps.
- Password rules (day 4).
- Orbit counting (day 6).
- Rocket fuel (day 1).

Modules:

- `Wrappers`: `Option` and `Result`, with the `:-` failure propagation Rust's `?` corresponds to.
- `RustInt`: Rust's truncating `/` and `%` for a positive divisor, `10.pow(k)`, and the integer ranges the parsers check.
- `Text`: `str::split` for a single-character separator and its inverse `Join`, plus `str::trim` and `char::is_whitespace`.
- `Decimal`: `str::parse` for a signed integer type of a given range, and the decimal rendering it inverts.
- `IntcodeDecode`: the instruction decoder, and a canonical encoding it inverts.
- `IntcodeVm`: the machine, its operand resolution, `execute_command`, one loop cycle, and the fuel-bounded `execute` loop.
- `IntcodeLaws`: what each instruction does, and the laws of the run loop:
  - output only grows;
  - the memory length is fixed;
  - suspending for input and resuming later with more input is the same as having all the input from the start;
  - more fuel does not change a finished run.
- `IntcodePipe`: `Machine::execute` and `Machine::finished` for pipes. Pipes are associative, and a chain built with `pipe` behaves as running its machines one after another.
- `IntcodeLoader`: `read_intcode_input` on a line already read; loading a rendered program gives it back.
- `IntcodeVectors`: the source's unit tests, error cases, suspension and a two-machine pipe, each as a lemma about `Execute`.
- `Wires`, `WiresVectors`: day 3, with the source's first worked example.
- `Passwords`: day 4.
- `Orbits`: day 6.
- `Fuel`: day 1.

The model follows the code where it differs from the intended Intcode behaviour:

- **End-of-memory check.** `execute` fails with `UnexpectedEndOfFile` only when the instruction pointer is strictly greater than the memory length. When the pointer equals the length, reading the opcode indexes past the end, a panic. The model reports that panic as the extra error `IndexOutOfBounds` (`IntcodeVm.Cycle`, `IntcodeVectors.RerunPastEnd`).
- **Halted machines run again.** `execute` sets the state back to `Running` on every call, even on a machine that has already halted. A second call therefore resumes at the cell after the `99` (`IntcodeVectors.RerunAfterHalt`).
- **Instruction pointer on error.** The pointer moves forward while operands are read, before the instruction's effects are applied. A failing instruction can leave it part-way through; only the memory at the failing instruction is reported (`Failed`).

## Model

| member | source | states |
|---|---|---|
| RustInt.Div | intcode/src/lib.rs:140 | Rust's `/` truncates toward zero: it agrees with Euclidean division on non-negative dividends |
| RustInt.Rem | intcode/src/lib.rs:152 | Rust's `%` gives `a == Div(a,b)*b + r`; the remainder is in `[0, b)` for a non-negative dividend and in `(-b, 0]` for a negative one |
| Text.Split | intcode/src/lib.rs:342 | `split` yields at least one field, and no field contains the separator |
| Text.JoinSplit | intcode/src/lib.rs:342 | joining the fields of a split gives back the original string |
| Text.SplitJoin | intcode/src/lib.rs:342 | splitting a join of at least one separator-free field gives back the fields |
| Text.Trim | intcode/src/lib.rs:341 | `trim` returns a slice of the input that neither starts nor ends with whitespace, and only whitespace is cut off on either side |
| Text.TrimUnchanged | intcode/src/lib.rs:341 | a string with no whitespace at either end is its own trim |
| Decimal.Parse | intcode/src/lib.rs:343 | `parse::<isize>` succeeds exactly on an optional `+` or `-` followed by one or more decimal digits whose value lies in the type's range, and then returns that value; the empty string, a lone sign and an out-of-range value are errors |
| Decimal.ParseRejects | intcode/src/lib.rs:343 | a character that is not a digit anywhere other than a leading sign makes the parse fail |
| Decimal.ParseShow | intcode/src/lib.rs:343 | parsing the decimal rendering of any in-range integer gives it back |
| IntcodeDecode.Decode | intcode/src/lib.rs:137-164 | a negative raw value is `InvalidOpCode`; `InvalidOpCode` happens exactly when the truncated `value % 100` is not an operation; decoding succeeds iff the value is non-negative, names an operation, and every mode digit that operation uses is 0 or 1; on success the operation number and each operand's mode match the digits |
| IntcodeDecode.DecodeReportsFirstBadMode | intcode/src/lib.rs:126-135 | a bad mode is reported with the digit of the first operand, left to right, whose digit is neither 0 nor 1 |
| IntcodeDecode.ParamDigits | intcode/src/lib.rs:140-151 | the three `params!` steps read decimal digits 2, 3 and 4 of a non-negative raw value |
| IntcodeDecode.DecodeEncode | intcode/src/lib.rs:137-164 | decoding the canonical raw value of any instruction gives that instruction back |
| IntcodeDecode.ModeOf | intcode/src/lib.rs:126-135 | `ParameterMode::try_from` succeeds exactly for the digits 0 and 1, which map to reference and immediate mode; any other digit is `InvalidParameterMode` carrying that digit |
| IntcodeVm.New | intcode/src/lib.rs:182-188 | a new machine holds the given memory, starts at cell 0, waits for input, and is not finished |
| IntcodeVm.Cell | intcode/src/lib.rs:191 | a memory read succeeds exactly for an index inside memory, and is an index failure otherwise |
| IntcodeVm.Store | intcode/src/lib.rs:231 | a write succeeds exactly for an address inside memory, and changes that cell and no other |
| IntcodeVm.ToAddress | intcode/src/lib.rs:101-105 | the `isize` to `usize` conversion succeeds exactly for non-negative values; a negative one is `InvalidAddress` |
| IntcodeVm.ReadParameter | intcode/src/lib.rs:196-206 | an immediate operand is the cell's value, and a reference operand is the value at the address the cell holds; a negative address is `InvalidAddress`, and a reference to an address at or past the end of memory is an index failure |
| IntcodeVm.ReadAddress | intcode/src/lib.rs:208-215 | a write target succeeds exactly when it is a reference holding a non-negative address; an immediate target is `ImmediateModeOutput` |
| IntcodeVm.ExecuteCommand | intcode/src/lib.rs:217-289 | an instruction keeps the memory length; only Output adds output, and only one value; only Input consumes input, and only the first value |
| IntcodeVm.Cycle | intcode/src/lib.rs:295-301 | a pointer past the end is `UnexpectedEndOfFile`; a pointer at the end is an index failure; decode errors propagate unchanged; a successful cycle keeps the memory length, appends at most one output value and consumes at most one input value |
| IntcodeVm.Run | intcode/src/lib.rs:291-303 | the `while let Running` loop, written for any cycle function, stops only once the machine has left `Running` |
| IntcodeVm.Execute | intcode/src/lib.rs:291-303 | a completed `execute` leaves the machine halted or waiting for input, never running |
| IntcodeVm.IsFinished | intcode/src/lib.rs:325-330 | `finished()` holds exactly for a halted machine; `ExecuteEnds` states that after a completed call it tells halting apart from waiting for input |
| IntcodeLaws.BinaryStep | intcode/src/lib.rs:227-272 | Add, Multiply, LessThan and Equals store the sum, product or 1/0 in the single target cell and move past their three operands; an immediate target, a negative target or a target outside memory fails with the matching error |
| IntcodeLaws.InputStep | intcode/src/lib.rs:239-248 | with an empty queue, Input rewinds to its own opcode and waits for input with nothing else changed; otherwise an operand cell past the end or a target address past the end is an index failure, an immediate target is `ImmediateModeOutput`, a negative target is `InvalidAddress`, and a valid target receives the first queued value, which is consumed |
| IntcodeLaws.OutputStep | intcode/src/lib.rs:249-252 | Output appends its operand's value and writes no memory |
| IntcodeLaws.JumpStep | intcode/src/lib.rs:273-286 | a jump whose condition holds moves to the target, failing with `InvalidAddress` for a negative one; otherwise it moves past its two operands |
| IntcodeLaws.ExitStep | intcode/src/lib.rs:224-226 | Exit moves to `Finished` past its opcode and changes nothing else |
| IntcodeLaws.InstructionPointerAdvance | intcode/src/lib.rs:217-289 | every instruction that neither jumps nor suspends advances the pointer by one plus its operand count |
| IntcodeLaws.OneCellAtMost | intcode/src/lib.rs:217-289 | a cycle writes at most one cell, and only a writing instruction writes at all |
| IntcodeLaws.WritesOneCell | intcode/src/lib.rs:227-248 | a successful two-input instruction, or an Input with a queued value, changes no memory cell except one address inside memory |
| IntcodeLaws.WritesNothing | intcode/src/lib.rs:239-286 | a successful Output, jump, Exit, or Input that waits for input leaves memory as it was |
| IntcodeLaws.ExecuteCommandQueueUnused | intcode/src/lib.rs:217-289 | every instruction other than Input ignores the input queue |
| IntcodeLaws.ExecuteCommandOutputShift | intcode/src/lib.rs:249-252 | what an instruction outputs does not depend on the output before it |
| IntcodeLaws.QueueUnused | intcode/src/lib.rs:295-301 | a cycle that does not wait for input with an empty queue does the same with any queue |
| IntcodeLaws.QueueExtends | intcode/src/lib.rs:239-248 | a cycle that does not stop for input behaves the same when more values are queued after its input, and leaves those values queued |
| IntcodeLaws.SuspendsOnlyWhenEmpty | intcode/src/lib.rs:239-242 | a cycle stops for input only when the input queue is empty |
| IntcodeLaws.SuspendInPlace | intcode/src/lib.rs:239-242 | a cycle that stops for input changes nothing but the state |
| IntcodeLaws.CycleOutputShift | intcode/src/lib.rs:295-301 | what a cycle outputs does not depend on the output before it |
| IntcodeLaws.CycleLawful | intcode/src/lib.rs:295-301 | the Intcode cycle satisfies the step laws the run-loop lemmas assume, including that extra queued input changes nothing until it is needed |
| IntcodeLaws.RunOutputShift | intcode/src/lib.rs:291-303 | the run loop only appends to the output it starts with |
| IntcodeLaws.RunKeepsLength | intcode/src/lib.rs:291-303 | the run loop keeps the memory length, and stops only outside `Running` |
| IntcodeLaws.FuelMonotone | intcode/src/lib.rs:295 | a run that ends within some fuel ends the same way with more fuel |
| IntcodeLaws.RunSuspendResume | intcode/src/lib.rs:239-248 | a run given a first queue that stops for input, then resumed with a second queue, is the same as one run given both queues from the start |
| IntcodeLaws.ExecuteSuspendResume | intcode/src/lib.rs:291-303 | calling `execute` with a first queue (such as a phase setting) until it waits for input, then again with a second queue, gives the output of both calls and the machine that one call with both queues would give, and the same failure when that call fails |
| IntcodeLaws.ExecuteEnds | intcode/src/lib.rs:291-303 | a completed call keeps the memory length and leaves the machine either finished or waiting for input, and `finished()` is true exactly in the first case; a failed call also keeps the memory length |
| IntcodeLaws.ExecuteFuelMonotone | intcode/src/lib.rs:291-303 | more fuel does not change a call that already ended |
| IntcodePipe.ExecuteUnit | intcode/src/lib.rs:51-54 | a pipe keeps its shape; an error in the first part is the pipe's error, and the second part does not run |
| IntcodePipe.PipeAssociative | intcode/src/lib.rs:29-37 | `(a \| b) \| c` and `a \| (b \| c)` print the same output, fail with the same error, and leave the same machines |
| IntcodePipe.Relay | intcode/src/lib.rs:51-54 | running machines one after another, each on the previous one's output, yields one new machine per machine |
| IntcodePipe.RelaySnoc | intcode/src/lib.rs:51-54 | relaying through one more machine is relaying, then running that machine |
| IntcodePipe.ChainRelays | intcode/src/lib.rs:29-37 | a chain built with `pipe` succeeds exactly when relaying through its machines does, with the same machines, in order, and the same output, and otherwise fails with the same error |
| IntcodePipe.ChainMachines | intcode/src/lib.rs:29-37 | a chain built with `pipe` holds exactly the machines it was built from, in order |
| IntcodePipe.ChainRelaysMachines | intcode/src/lib.rs:29-37 | when relaying succeeds, the chain's machines after the call are the relayed machines, in order |
| IntcodePipe.UnitFinished | intcode/src/lib.rs:56-58 | a pipe is finished when either of its parts is; `ChainFinished` states what this means for a whole chain |
| IntcodePipe.ChainFinished | intcode/src/lib.rs:56-58 | a chain is finished exactly when one of its machines is |
| IntcodeLoader.ParseAll | intcode/src/lib.rs:340-345 | collecting the parsed fields succeeds iff every field parses, and then yields one value per field, in order |
| IntcodeLoader.Load | intcode/src/lib.rs:340-345 | loading succeeds exactly when every field of the trimmed line, split at commas, parses as an `isize`, and then holds one value per field, in order; a loaded program has at least one cell, and a line that is blank after trimming is an error |
| IntcodeLoader.LoadRejects | intcode/src/lib.rs:340-345 | a line with one field that is not a signed decimal `isize` in range fails to load |
| IntcodeLoader.LoadRender | intcode/src/lib.rs:340-345 | loading the comma-separated rendering of any non-empty program of `isize` values gives the program back |
| IntcodeVectors.AddAndHalt | intcode/src/lib.rs:352-357 | `1,0,0,0,99` ends finished with memory `2,0,0,0,99` |
| IntcodeVectors.MultiplyInPlace | intcode/src/lib.rs:359-364 | `2,3,0,3,99` ends with memory `2,3,0,6,99` |
| IntcodeVectors.SquarePastHalt | intcode/src/lib.rs:366-371 | `2,4,4,5,99,0` ends with 9801 in its last cell |
| IntcodeVectors.SelfModifying | intcode/src/lib.rs:373-378 | `1,1,1,4,99,5,6,0,99` rewrites its halt and ends with memory `30,1,1,4,2,5,6,0,99` |
| IntcodeVectors.MixedModes | intcode/src/lib.rs:380-385 | `1002,4,3,4,33` turns its last cell into a halt |
| IntcodeVectors.InputRewritesProgram | intcode/src/lib.rs:386-391 | `3,2,0` with input 99 ends with memory `3,2,99` |
| IntcodeVectors.JumpPositionMode | intcode/src/lib.rs:392-399 | the position-mode jump program prints `[0]` for input 0 |
| IntcodeVectors.JumpImmediateMode | intcode/src/lib.rs:401-407 | the immediate-mode jump program prints `[0]` for input 0 |
| IntcodeVectors.EchoSuspends | intcode/src/lib.rs:239-242 | with no input, the echo program stops at its Input instruction, unchanged and not finished |
| IntcodeVectors.EchoResumes | intcode/src/lib.rs:291-303 | a later call with input finishes the suspended echo program and prints the input |
| IntcodeVectors.UnknownOperation | intcode/src/lib.rs:162 | an unknown operation fails with its raw value, after the earlier instructions took effect |
| IntcodeVectors.BadModeDigit | intcode/src/lib.rs:132 | mode digit 2 on a used operand fails with `InvalidParameterMode(2)` |
| IntcodeVectors.ImmediateWrite | intcode/src/lib.rs:213 | an immediate write target fails with `ImmediateModeOutput` |
| IntcodeVectors.NegativeAddresses | intcode/src/lib.rs:202 | a negative reference, and a taken jump to a negative target, fail with `InvalidAddress` |
| IntcodeVectors.RunsOffTheEnd | intcode/src/lib.rs:296-299 | a program without a halt that reaches the end of memory fails with the index error, not `UnexpectedEndOfFile` |
| IntcodeVectors.RerunAfterHalt | intcode/src/lib.rs:294 | a second call on a halted machine carries on from the cell after the halt |
| IntcodeVectors.RerunPastEnd | intcode/src/lib.rs:296 | a second call after a halt in the last cell fails with the index error |
| IntcodeVectors.PipeDoubleAddOne | intcode/src/lib.rs:51-58 | a pipe of a doubling and an add-one machine turns 5 into 11, and both machines end finished |
| Wires.ParseDirection | day-3/src/main.rs:15-23 | a direction parses exactly from one of the strings `D`, `L`, `U`, `R`; anything else is the direction error |
| Wires.ParseSegment | day-3/src/main.rs:34-41 | a segment parses iff its first character is a direction and the rest is an `i32`; the direction is checked first |
| Wires.ParseShowSegment | day-3/src/main.rs:34-41 | parsing a written segment with an `i32` distance gives it back |
| Wires.ParseSegments | day-3/src/main.rs:115-118 | collecting segments succeeds iff every field parses, and then yields one segment per field, in order; otherwise the error is the one of the first field that fails; only the fields up to that one are sliced |
| Wires.ParseWire | day-3/src/main.rs:115-118 | a line parses exactly when each of its comma-separated fields is a segment, and then gives one segment per field, at least one; otherwise the error is the first failing field's own |
| Wires.ParseRenderWire | day-3/src/main.rs:115-118 | parsing the comma-separated line of any non-empty wire with `i32` distances gives the wire back |
| Wires.Count | day-3/src/main.rs:93-96 | a segment with a positive distance yields as many points as its distance; one with distance 0 or negative yields exactly one point |
| Wires.Next | day-3/src/main.rs:63-100 | `next` ends exactly when no segment is in progress and none is left; otherwise the point it yields is one unit step from the last position, and a direction is kept only while distance remains |
| Wires.NextPending | day-3/src/main.rs:63-100 | `next` returns nothing exactly when no points are pending; otherwise it yields the first pending point and leaves the rest pending |
| Wires.Collect | day-3/src/main.rs:104-111 | draining a new iterator yields the walk from the origin |
| Wires.CollectStep | day-3/src/main.rs:104-111 | one step of draining moves a point from the pending walk to the collected points and shrinks what remains |
| Wires.WalkLength | day-3/src/main.rs:63-100 | each segment contributes its count of points |
| Wires.WalkUnitSteps | day-3/src/main.rs:74-91 | a walk moves one unit at a time, starting next to the origin |
| Wires.NearestIn | day-3/src/main.rs:127-131 | no value exactly when no point of the second wire lies on the first; otherwise the value is the distance of some crossing and no crossing is nearer |
| Wires.MinimumDistance | day-3/src/main.rs:114-132 | the result is `Ok` exactly when both wires parse; a first wire that fails gives its first failing field's error and the second line is not looked at; then a failing second wire gives its error; with no crossing the value is 0, otherwise it is the Manhattan distance of a crossing and no crossing is nearer |
| Wires.FirstSteps | day-3/src/main.rs:142-148 | the map holds exactly the points of the walk, each with one more than the index of its first occurrence |
| Wires.FewestIn | day-3/src/main.rs:155-160 | no value exactly when no point of the second wire is in the map; otherwise the value is reached by some crossing and no crossing costs fewer steps |
| Wires.FewestCrossing | day-3/src/main.rs:134-161 | over first-step counts, the fewest combined steps is none iff the wires never meet; otherwise it is `i + j + 2` for some pair of coinciding points and no smaller for any other |
| Wires.MinimumCombinedSteps | day-3/src/main.rs:134-161 | the result is `Ok` exactly when both wires parse; a first wire that fails gives its first failing field's error and the second line is not looked at; then a failing second wire gives its error; with no crossing the value is 0, otherwise it is the step count of a crossing and no crossing costs fewer steps |
| WiresVectors.ParseFirstLine | day-3/src/main.rs:185-188 | `R8,U5,L5,D3` parses to its four segments |
| WiresVectors.ParseSecondLine | day-3/src/main.rs:185-188 | `U7,R6,D4,L4` parses to its four segments |
| WiresVectors.NearestWorkedExample | day-3/src/main.rs:127-131 | on the walks of the first worked example, the nearest crossing is at distance 6 |
| WiresVectors.FewestWorkedExample | day-3/src/main.rs:155-160 | on the walks of the first worked example, the fewest combined steps are 30 |
| WiresVectors.MinimumDistanceExample | day-3/src/main.rs:185-188 | `find_minimum_distance("R8,U5,L5,D3", "U7,R6,D4,L4")` is `Ok(6)` |
| WiresVectors.MinimumCombinedStepsExample | day-3/src/main.rs:212-218 | `find_minimum_combined_steps("R8,U5,L5,D3", "U7,R6,D4,L4")` is `Ok(30)` |
| WiresVectors.BadFirstField | day-3/src/main.rs:115-118 | the line `X,` fails with the direction error, without slicing its empty second field |
| WiresVectors.MinimumDistanceBadFirst | day-3/src/main.rs:114-125 | `find_minimum_distance("X", "")` fails with the direction error of the first wire, without slicing the second |
| Passwords.IsValidPuzzle1 | day-4/src/main.rs:3-16 | the first rule accepts exactly the values whose six digits never decrease and are not all distinct |
| Passwords.IsValidPuzzle2 | day-4/src/main.rs:18-32 | the second rule accepts exactly the values whose six digits never decrease and include a digit that occurs exactly twice |
| Passwords.TalliesCount | day-4/src/main.rs:19-28 | the `repetitions` array built digit by digit holds, for each digit, exactly how often it occurs |
| Passwords.AdjacentRepeat | day-4/src/main.rs:15 | for non-decreasing digits, "not all distinct" is the same as "two adjacent digits are equal" |
| Passwords.Puzzle2ImpliesPuzzle1 | day-4/src/main.rs:18-32 | every value the second rule accepts, the first rule accepts too |
| Passwords.Puzzle1Examples | day-4/src/main.rs:50-55 | 111111 and 122345 pass the first rule, and 123456 does not |
| Passwords.Puzzle2RejectsOnes | day-4/src/main.rs:59 | 111111 fails the second rule |
| Passwords.Puzzle2RejectsDistinct | day-4/src/main.rs:60 | 123456 fails the second rule |
| Passwords.Puzzle2AcceptsPair | day-4/src/main.rs:61 | 122345 passes the second rule |
| Passwords.Puzzle2RejectsTriple | day-4/src/main.rs:62-63 | 122245 and 123444 fail the second rule |
| Passwords.Puzzle2AcceptsTrailingPair | day-4/src/main.rs:64 | 111122 passes the second rule |
| Orbits.DepthUnique | day-6/src/main.rs:29-40 | a body has at most one orbit count, so the memoised count is well defined |
| Orbits.SumCountsRemove | day-6/src/main.rs:49 | the sum of the counts does not depend on the order the map is visited in |
| Orbits.CountOrbits | day-6/src/main.rs:20-49 | every body of the orbit map gets a count, nothing else does; each count is the number of direct and indirect orbits between the body and `COM`; the total is the sum of the counts |
| Orbits.LineOfThreeTotal | day-6/src/main.rs:20-49 | for the line B→COM, C→B, D→C, counts meeting that contract sum to 6 |
| Fuel.FinalFuel | day-1/src/main.rs:3-10 | the fuel for a load, counting the load itself, is never negative: 0 for a non-positive load and at least the load otherwise |
| Fuel.CalculateFinalFuel | day-1/src/main.rs:3-10 | the loop adds up the load, then the fuel for it, while positive: the recurrence `FinalFuel` |
| Fuel.FinalFuelMonotone | day-1/src/main.rs:3-10 | more fuel never needs less fuel for itself |
| Fuel.ModulesFuel | day-1/src/main.rs:16-19 | the total fuel for the modules is never negative, and 0 for no modules |
| Fuel.ModulesFuelAppend | day-1/src/main.rs:16-19 | the total over two lists of modules is the sum of their totals |
| Fuel.LightModule | day-1/src/main.rs:17 | a module of mass below 9 needs no fuel |
| Fuel.HeavyModule | day-1/src/main.rs:17-18 | mass 1969 needs 654 units of fuel, and 966 counting the fuel's own fuel |

## Left out

- Input and output are not modelled: `stdin`, `read_line` and `println`. Each parser takes the line already read.
- The solver drivers of days 2, 5 and 7 are not modelled. They only call the machine and the pipe.
- `Display`, `Clone`, and the `Box<dyn Machine>` pipe are not modelled. The boxed pipe has the same body as the generic one.
- The `InputError` variant is not modelled, because the code never constructs it.
- `IntcodeVm.Execute` models the inherent `execute` and the `Machine` trait's `execute` once, because their bodies are identical.
- `IntcodeVm.Execute` is bounded by a fuel count of cycles. `OutOfFuel` marks a run cut short, which the program does not have. A program that loops forever is therefore not described beyond any bound.
- `IntcodeVm.Execute` does not report the instruction pointer left after a failure, only the memory when the failing instruction began. No caller uses a machine after an error.
- `IntcodeVm.Cycle` reports an out-of-range memory index as `IndexOutOfBounds`. The code panics there instead.
- `IntcodePipe.ExecuteUnit` returns only the error on a failure and drops the machines' states. The Rust pipe keeps them in place, but they are not used after an error.
- `RustInt.IsizeMin` and `RustInt.IsizeMax` assume a 64-bit target, where `isize` is 64 bits wide. On a 32-bit target the loader would accept a narrower range.
- Integer overflow is not modelled: `isize` arithmetic in Add and Multiply, `i32` positions in the wire walk, `u32` sums of distances and steps, `i64` fuel, and `u32` orbit counts. Values are unbounded, whereas the code would panic in debug builds or wrap in release builds. Parsing does check the `isize` and `i32` ranges.
- `Wires.ParseSegment` requires a non-empty field with an ASCII first character. The code panics on `s[..1]` otherwise.
- `Wires.ParseSegments` requires a sliceable field only where the collect reaches it: up to and including the first field that fails. Slicing a reached field that is empty or starts with a non-ASCII character panics in the code.
- `Wires.ParseWire` requires the same of the line's fields, for the same reason.
- `Wires.MinimumDistance` requires it of the first line, and of the second line only when the first one parses, because the code does not split the second line before that.
- `Wires.MinimumCombinedSteps` requires the same as `Wires.MinimumDistance`, for the same reason.
- `Passwords.IsValidPuzzle2` does not model the `u8` repetition counters wrapping. Six digits count at most 6.
- `Orbits.CountOrbits` requires every body's chain to reach `COM`. Otherwise the code panics on a missing key or loops forever.
- `Orbits.CountOrbits` visits the bodies in an arbitrary order, where the code uses `HashMap` iteration order.
- `read_orbits` is not modelled. It parses lines `A)B`, and the map it produces is the method's parameter.
- The day 3 solver is stated for all inputs, but only the first worked example is proved as a vector. The other two examples have hundreds of points each, and proving them point by point is beyond the verification budget.
- The puzzle search ranges and answers in the `main` functions are not modelled, because they depend on puzzle input.
