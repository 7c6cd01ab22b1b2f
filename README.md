# aoc2019 core, modelled in Dafny

This project models four small programs from an Advent of Code 2019 repository
written in Rust:

- **Intcode machine** (`intcode/src/main.rs`). A `Memory` holds `i32` words in a
  fixed-size buffer. An `IntCode` machine holds that memory and an instruction
  counter. `next` decodes the label at the counter: the opcode is the low two
  decimal digits, and the higher digits are the parameter modes, position or
  immediate. `next` recognises halt, then reads the parameters and moves the
  counter past them. `execute` performs one of eight instructions: add,
  multiply, input, output, jump-if-true, jump-if-false, less-than and equals.
  `run_program` repeats the two until `next` finds a halt, and collects the
  outputs. `amplifier_sequence` chains five runs of one program. Each run gets
  a phase and the previous run's first output.
- **Wire tracer** (`wiring/src/main.rs`). A wire walks a grid one cell at a
  time from the origin, following tokens such as `R8` or `U5`. It remembers its
  cells in visiting order and as a map from column to rows. The two answers are
  the smallest Manhattan distance to a crossing of two wires, and the smallest
  combined number of steps to a crossing.
- **Password validator** (`password/src/main.rs`). It reads the decimal digits
  of a value most significant first. It keeps flags for a decrease, a repeated
  digit and an invalid odd-length repeat. `check` counts how many values of a
  range a six-digit password accepts.
- **Fuel calculator** (`fuel_requirement/src/main.rs`). The fuel for a module
  is a third of its mass minus two. More fuel is then added for the fuel
  itself, in the same way, until a step adds less than nothing.

Where the Intcode machine panics or exits, the model returns a `Fault`. That covers
an index past the end of memory, `input.remove(0)` on an empty input, an
unknown opcode, `i32` overflow in a debug build, and indexing an empty output
vector. In the wire tracer, the password validator and the fuel calculator, the
inputs on which the Rust code panics are excluded by `requires` clauses, listed
under "## Left out". State that the Rust code changes in place is a Dafny `class`:

- `Memory` is a class with an `array`;
- `IntCode` is a class with the counter `ic`;
- `Password` is a class with its flags;
- `Point` and `WirePath` are classes holding the position, the `steps`
  sequence and the `vertices` map.

Each method is proved against a function on values:

- `IntcodeSemantics.Fetch`, `Exec`, `Step` and `Run`;
- `PasswordRule.ScanFrom` and `Rule`;
- `Wiring.Walk`, `Recorded` and `CellsOf`.

The properties are proved about those functions.

Modules:

| file | module | models |
|---|---|---|
| options.dfy | `Options` | `Option` and `Result` |
| decimal.dfy | `Decimal` | powers of ten and quotient/remainder facts |
| intcode_decode.dfy | `IntcodeDecode` | `OpCode::from`, `ParameterMode::from`, `Instruction::new`, `process_label`, `len` |
| intcode_semantics.dfy | `IntcodeSemantics` | `next`, `execute` and `run_program` as functions on states, with their properties |
| intcode_vm.dfy | `IntcodeMachine` | `Memory` and `IntCode`, with methods |
| intcode_amplifier.dfy | `IntcodeAmplifier` | `amplifier_sequence` |
| intcode_examples.dfy | `IntcodeExamples` | the unit tests of `intcode/src/main.rs` |
| wiring.dfy | `Wiring` | `Point`, `WirePath`, the token loop of `main`, both answers |
| password_rule.dfy | `PasswordRule` | digits, the scan, and the rule it decides |
| password.dfy | `PasswordCheck` | `Password`, `check` and the unit tests |
| fuel.dfy | `Fuel` | `fuel_requirement`, `meta_fuel` |

Later Intcode puzzles use a richer machine. This code has none of it, and the
model follows the code:

- there is no relative mode;
- memory does not grow, and an access past its end panics;
- words are `i32`, not 64-bit;
- amplifiers have no feedback loop: each amplifier runs once on a fresh copy of
  the program;
- Output reads its parameter as an address whatever its mode.

## Model

| member | source | states |
|---|---|---|
| IntcodeMachine.Memory.constructor | intcode/src/main.rs:340-342 | the new memory holds exactly a copy of the program, in a fresh buffer |
| IntcodeMachine.Memory.Read | intcode/src/main.rs:19-21 | the result is the word at `index`, defined only for an index inside the memory |
| IntcodeMachine.IntCode.constructor | intcode/src/main.rs:344-347 | the machine holds the given memory and starts at counter 0 |
| IntcodeMachine.IntCode.Resolve | intcode/src/main.rs:206-213 | the operand is what `Operand` gives: the parameter in immediate mode, the word it addresses in position mode, or an out-of-bounds fault |
| IntcodeMachine.IntCode.Store | intcode/src/main.rs:215 | storing at `address as usize` gives the memory of the `Store` function, or its out-of-bounds fault with the memory unchanged |
| IntcodeMachine.Memory.Write | intcode/src/main.rs:23-25 | the word at `index` reads back as `value`; every other word and the size are unchanged |
| IntcodeDecode.OpCodeFrom | intcode/src/main.rs:42-57 | the opcode is `Unknown` exactly when the number is none of 1-8 or 99; otherwise the opcode's code is that number |
| IntcodeDecode.OpCodeRoundTrip | intcode/src/main.rs:42-57 | every known opcode decodes back from its code |
| IntcodeDecode.ModeFrom | intcode/src/main.rs:65-72 | immediate mode exactly for the digit 1; any other digit is position mode |
| IntcodeDecode.Len | intcode/src/main.rs:124-137 | the length is 4 for the two-operand writers, 3 for jumps, 2 for input/output, 1 for halt and 0 for unknown, in both directions |
| IntcodeDecode.ProcessLabel | intcode/src/main.rs:108-122 | the loop of truncating divisions yields the split of the label into opcode and three mode parts |
| IntcodeDecode.StagesSplit | intcode/src/main.rs:108-122 | the staged truncating divisions equal the decimal split, negated for negative labels |
| IntcodeDecode.SplitIdentity | intcode/src/main.rs:108-122 | the parts rebuild the label exactly, the opcode has two digits and the inner modes one, and all parts carry the label's sign |
| IntcodeDecode.NewInstruction | intcode/src/main.rs:94-106 | the new instruction is the decoded label: no arguments yet, three modes, and the length of its opcode |
| IntcodeDecode.DecodeEncode | intcode/src/main.rs:94-122 | a label built from an opcode and three modes decodes to exactly that opcode, those modes and that length |
| IntcodeSemantics.FetchSpec | intcode/src/main.rs:148-171 | `next` fails past the end and exits on an unknown opcode; it yields `None` exactly on a halt; otherwise its parameters are the `len - 1` words after the label |
| IntcodeMachine.IntCode.Next | intcode/src/main.rs:148-171 | the result is `Fetch` on the memory and old counter; the counter advances by the instruction's length, or stays on a halt or fault |
| IntcodeSemantics.WritesOneWord | intcode/src/main.rs:205-229 | add, mul, less-than and equals write exactly one word, at the third parameter, with the sum, product or 1/0 comparison of the operands; nothing else changes |
| IntcodeSemantics.OperandModes | intcode/src/main.rs:205-291 | an operand is the parameter itself in immediate mode and the addressed word in position mode |
| IntcodeSemantics.IgnoredModes | intcode/src/main.rs:187-229 | the third mode of a writing instruction and every mode of input and output never change the result |
| IntcodeSemantics.JumpMovesCounter | intcode/src/main.rs:231-255 | a jump sets the counter to the second operand exactly when the first is non-zero (jump-if-true) or zero (jump-if-false); memory and input stay |
| IntcodeSemantics.InputConsumes | intcode/src/main.rs:193 | input succeeds exactly when input is pending and the address is in range; it fails on empty input; it stores the first value and drops it |
| IntcodeSemantics.OutputEmits | intcode/src/main.rs:194 | output emits the addressed word, changes nothing, and succeeds exactly when the address is in range |
| IntcodeMachine.IntCode.Combined | intcode/src/main.rs:205-229 | add/mul/less-than/equals leave the memory `Exec` gives, or return its fault |
| IntcodeMachine.IntCode.Jump | intcode/src/main.rs:231-255 | both jumps leave the counter `Exec` gives, or return its fault |
| IntcodeMachine.IntCode.Execute | intcode/src/main.rs:187-203 | one instruction yields the output and new state (memory, counter, remaining input) of `Exec`, or its fault |
| IntcodeSemantics.StepKeeps | intcode/src/main.rs:187-203 | a step keeps the memory size and the `i32` words; it consumes at most the first input |
| IntcodeMachine.IntCode.RunProgram | intcode/src/main.rs:175-185 | the outputs are those of `Run`, in order, with the final memory, counter and unread input; otherwise its fault |
| IntcodeSemantics.RunStep | intcode/src/main.rs:175-185 | a run that executes an instruction continues from its effect with the output in front |
| IntcodeSemantics.RunStop | intcode/src/main.rs:175-185 | a run stops with no output on a halt and with the fault on a failing step |
| IntcodeSemantics.RunKeeps | intcode/src/main.rs:175-203 | a finished run keeps the memory size and `i32` words, and leaves a suffix of its input unread |
| IntcodeSemantics.RunFuelMonotone | intcode/src/main.rs:175-185 | a run that did not run out of turns gives the same result with any larger bound |
| IntcodeAmplifier.AmplifierSequence | intcode/src/main.rs:336-368 | the result is the chain of five runs, each on a fresh copy of the program with its phase and the previous first output |
| IntcodeAmplifier.ChainPasses | intcode/src/main.rs:339-353 | an amplifier whose run succeeds passes its first output to the next one |
| IntcodeAmplifier.ChainFuelMonotone | intcode/src/main.rs:336-368 | a chain that did not run out of turns gives the same result with any larger bound |
| IntcodeExamples.GetInstruction | intcode/src/main.rs:443-457 | the fixture's first instruction is `Add 10 11 12` in position mode, four words long |
| IntcodeExamples.GetMultipleInstructions | intcode/src/main.rs:459-475 | the instruction at 4 is `Mul 12 10 12` in position mode |
| IntcodeExamples.CompoundOpcode | intcode/src/main.rs:477-494 | label 101 at 8 is `Add` with an immediate first mode and parameters 0 1 8 |
| IntcodeExamples.Execution | intcode/src/main.rs:496-509 | the equals-8 program, given input 7, outputs exactly `[0]` |
| IntcodeExamples.ShortRun | intcode/src/main.rs:520-528 | the short amplifier program outputs `10 * signal + phase` |
| IntcodeExamples.MediumRun | intcode/src/main.rs:530-537 | the medium amplifier program outputs `10 * signal + 5 - phase` |
| IntcodeExamples.LongRun | intcode/src/main.rs:511-518 | the long amplifier program outputs `10 * signal + phase - 2`, plus 7 when the phase is below 2 |
| IntcodeExamples.AmplifierShort | intcode/src/main.rs:520-528 | phases 4,3,2,1,0 give 43210 |
| IntcodeExamples.AmplifierMedium | intcode/src/main.rs:530-537 | phases 0,1,2,3,4 give 54321 |
| IntcodeExamples.AmplifierLong | intcode/src/main.rs:511-518 | phases 1,0,4,3,2 give 65210 |
| Wiring.Point.Up | wiring/src/main.rs:12-14 | one row up, same column |
| Wiring.Point.Down | wiring/src/main.rs:16-18 | one row down, same column |
| Wiring.Point.Left | wiring/src/main.rs:20-22 | one column left, same row |
| Wiring.Point.Right | wiring/src/main.rs:24-26 | one column right, same row |
| Wiring.WirePath.constructor | wiring/src/main.rs:37-43 | a new wire is at the origin with no steps and no vertices, and it is a valid path |
| Wiring.WirePath.Record | wiring/src/main.rs:45-58 | the map gains row `y` in column `x`, whether or not the column existed |
| Wiring.Recorded | wiring/src/main.rs:45-58 | the recorded cells are the old cells plus `(x, y)`; other columns are unchanged |
| Wiring.RecordIdempotent | wiring/src/main.rs:45-58 | recording the same cell twice is the same as recording it once |
| Wiring.WirePath.Up | wiring/src/main.rs:60-64 | the position moves up, a copy of it is appended to `steps` and recorded, and the path stays valid |
| Wiring.WirePath.Down | wiring/src/main.rs:66-70 | the same, downwards |
| Wiring.WirePath.Right | wiring/src/main.rs:72-76 | the same, to the right |
| Wiring.WirePath.Left | wiring/src/main.rs:78-82 | the same, to the left |
| Wiring.WirePath.Intersections | wiring/src/main.rs:84-108 | `None` exactly when the wires share no cell; otherwise the crossings are listed without repeats, and they are exactly the shared cells |
| Wiring.MoveIsAdjacent | wiring/src/main.rs:12-26 | each move goes to a neighbouring cell |
| Wiring.WalkIsTraced | wiring/src/main.rs:129-148 | `n` steps in one direction form a path of unit steps |
| Wiring.FollowToken | wiring/src/main.rs:125-152 | a token with a direction and a positive distance appends that straight walk and ends at its last cell; any other token changes nothing |
| Wiring.Minimum | wiring/src/main.rs:158-163 | the minimum is an element no larger than any other, and is absent exactly for an empty sequence |
| Wiring.Position | wiring/src/main.rs:175-176 | the first index holding the cell; absent exactly when the cell is not there |
| Wiring.ClosestDistance | wiring/src/main.rs:158-163 | the result is the Manhattan distance of some crossing and no larger than that of any crossing |
| Wiring.ClosestIntersection | wiring/src/main.rs:169-181 | the result is the combined step count of some crossing and no larger than that of any crossing |
| PasswordRule.DigitsRoundTrip | password/src/main.rs:23-31 | the digits read rebuild the value |
| PasswordRule.DigitAt | password/src/main.rs:24-31 | digit `k` is what the loop extracts: the quotient by the divisor after subtracting the earlier digits |
| PasswordRule.ScanDecidesRule | password/src/main.rs:23-60 | the scan accepts exactly the digits that never decrease, have two equal neighbours and have no maximal run of odd length 3 or more |
| PasswordRule.IsValidIsRule | password/src/main.rs:23-60 | a fresh password is valid exactly when its digits follow that rule |
| PasswordRule.CountValidBound | password/src/main.rs:67-77 | the count is zero on an empty range and at most the range's size |
| PasswordRule.CountValidSplit | password/src/main.rs:67-77 | counts over adjacent ranges add up |
| PasswordCheck.Password.constructor | password/src/main.rs:12-21 | every flag is clear and the run length is 1 |
| PasswordCheck.Password.CheckRepeat | password/src/main.rs:51-60 | the flags become `RepeatStep` of the old flags: an equal digit extends the run, a different one closes it |
| PasswordCheck.Password.Valid | password/src/main.rs:23-49 | the flags and remaining value are those of the scan, and the answer is its verdict; on a fresh password the answer is the rule on its digits |
| PasswordCheck.Check | password/src/main.rs:67-77 | the count of accepted values in the range, at most its size |
| PasswordCheck.SimpleValid | password/src/main.rs:83-88 | 123445 is valid |
| PasswordCheck.InvalidDecrease | password/src/main.rs:90-95 | 122144 is invalid |
| PasswordCheck.InvalidNoRepeat | password/src/main.rs:97-102 | 123456 is invalid |
| PasswordCheck.InvalidTriple | password/src/main.rs:104-109 | 122234 is invalid |
| PasswordCheck.ValidQuad | password/src/main.rs:111-116 | 111123 is valid (also `four_starter`, lines 181-186) |
| PasswordCheck.InvalidTripleWithValidRepeat | password/src/main.rs:118-123 | 222334 is invalid |
| PasswordCheck.InvalidTripleAtEnd | password/src/main.rs:125-130 | 112333 is invalid |
| PasswordCheck.InvalidTripleEndWithValidDouble | password/src/main.rs:132-137 | 122444 is invalid |
| PasswordCheck.Fiver | password/src/main.rs:139-144 | 122222 is invalid (also `five_ender`, lines 174-179) |
| PasswordCheck.DoubleTriple | password/src/main.rs:146-151 | 111222 is invalid |
| PasswordCheck.TripleDouble | password/src/main.rs:153-158 | 112233 is valid |
| PasswordCheck.TripleThenDouble | password/src/main.rs:160-165 | 111233 is invalid |
| PasswordCheck.FourEnder | password/src/main.rs:167-172 | 123333 is valid |
| PasswordCheck.Sixer | password/src/main.rs:188-193 | 111111 is valid |
| PasswordCheck.FiveStarter | password/src/main.rs:195-200 | 444445 is invalid |
| Fuel.MetaFuel | fuel_requirement/src/main.rs:26-34 | below mass 6 the total is returned unchanged; the result never drops below the total |
| Fuel.MetaFuelAccumulates | fuel_requirement/src/main.rs:26-34 | the result is the total plus the fuel series for the mass |
| Fuel.MetaFuelShift | fuel_requirement/src/main.rs:26-34 | the running total only shifts the result |
| Fuel.ExtraFuelBound | fuel_requirement/src/main.rs:26-34 | the extra fuel for a mass is at most half of it |
| Fuel.FuelRequirement | fuel_requirement/src/main.rs:20-24 | the requirement is at least the base fuel (a third of the mass minus 2) and at most half the mass |
| Fuel.FuelRequirementIsSeries | fuel_requirement/src/main.rs:20-24 | the requirement is the base fuel plus the fuel series for it |

## Left out

- Reading the program, wire or mass files, parsing their text, `println!` and `dbg!` output, and the process arguments are not modelled. The model's inputs are the parsed values.
- `day7`'s search over all phase permutations (`itertools::permutations`) and its maximum are not modelled. Neither are the `day5`/`day2` drivers or `load_program`, which only read files.
- The fuel program's `main` sum over the lines of its input is file I/O around `fuel_requirement`, and is not modelled.
- `RefCell` borrowing is not modelled. `Memory` is a class over an `array`, and `IntCode` holds a reference to it.
- The `feedback_small` test (intcode/src/main.rs:539-546) is not modelled. The code has no feedback loop, so that program's jump back to its input instruction reads a third input. `input.remove(0)` then panics, which the model returns as `EmptyInput`.
- IntcodeMachine.IntCode.RunProgram: the Rust loop is unbounded. The model takes a bound on the number of turns, and `OutOfFuel` is an outcome the Rust code does not have. `RunFuelMonotone` shows the bound does not change a finished run.
- IntcodeSemantics.Combine: a release build wraps `i32` overflow around. The model follows a debug build, where overflow panics, and returns `Overflow`.
- IntcodeMachine.IntCode.Next: the `exit(1)` on an unknown opcode, and its message, become the fault `UnknownOpcode`.
- IntcodeExamples.ShortRun, IntcodeExamples.MediumRun and IntcodeExamples.LongRun are proved only for phases and signals small enough that no step overflows an `i32` (`Small`). The amplifier tests use only such values.
- `HashMap`/`HashSet` iteration order is not modelled. `Wiring.WirePath.Intersections` returns the crossings in some order without repeats, and both answers are minima, so neither depends on the order.
- Wiring.Point.Up, Wiring.Point.Down, Wiring.Point.Left and Wiring.Point.Right require that the `i16` coordinate does not overflow, where the Rust code would panic or wrap around.
- Wiring.ClosestDistance requires that the `i16` `abs` and sum do not overflow.
- Wiring.FollowToken requires that the whole walk stays within `i16`. A token whose direction is not one of `R`, `U`, `L`, `D` does nothing, as in the source. A distance that fails to parse panics in the source and is not modelled.
- The `unwrap`s in `main` and `closest_intersection` panic when the wires never cross. Wiring.ClosestDistance and Wiring.ClosestIntersection require a crossing instead.
- PasswordCheck.Password.Valid requires `1 <= len <= 10`. Outside that range `10_u32.pow(len - 1)` underflows or overflows in the source. The `u32` value is modelled as a `nat`.
- Fuel.FuelRequirement requires a mass of at least 6, because below that `(mod_size / 3) - 2` underflows a `u64` and panics. `u64` overflow of the running total is not modelled.
