/**
 * What the Intcode machine of intcode/src/main.rs does, stated on values: a
 * state is the memory, the instruction counter and the pending input, and one
 * step fetches an instruction (`IntCode::next`) and executes it
 * (`IntCode::execute`). Every way the Rust code panics or exits becomes a
 * `Fault`.
 */
module IntcodeSemantics {
  import opened Options
  import opened IntcodeDecode

  const I32_MIN: int := -0x8000_0000
  const I32_MAX: int := 0x7fff_ffff

  predicate InI32(v: int)
  {
    I32_MIN <= v <= I32_MAX
  }

  predicate AllI32(s: seq<int>)
  {
    forall k :: 0 <= k < |s| ==> InI32(s[k])
  }

  /** `v as usize` on a 64-bit target: a negative `i32` wraps around to a
      value of at least 2^63, which no memory reaches. */
  function AsUsize(v: int): (u: nat)
    ensures v >= 0 ==> u == v
    ensures -0x8000_0000_0000_0000 <= v < 0 ==> u >= 0x8000_0000_0000_0000
  {
    if v < 0 then v % 0x1_0000_0000_0000_0000 else v
  }

  /** Why a run stops without halting. */
  datatype Fault =
    | UnknownOpcode(value: int, position: nat)   // `next` prints and calls `exit(1)`
    | OutOfBounds(index: nat)                    // a `Vec` index panics
    | EmptyInput                                 // `input.remove(0)` panics
    | Overflow(value: int)                       // `i32` `+` or `*` panics
    | NoOutput                                   // `run_program(..)[0]` panics
    | OutOfFuel                                  // the model's bound on the run

  datatype State = State(mem: seq<int>, ic: nat, input: seq<int>)

  /** A state after one instruction, and what it output. */
  datatype Effect = Effect(next: State, output: Option<int>)

  // ---------------------------------------------------------------------------
  // Fetch

  /** The parameters `next` reads after the label at `ic`. */
  function Args(mem: seq<int>, ic: nat, len: nat): seq<Option<int>>
    requires 1 <= len <= 4 && ic + len <= |mem|
  {
    seq(3, k requires 0 <= k < 3 => if k < len - 1 then Some(mem[ic + k + 1]) else None)
  }

  /** `IntCode::next`: decodes the label at `ic`. A halt yields no
      instruction; an unknown opcode exits; otherwise the `len - 1` words
      after the label are the parameters (reading past the end panics at the
      first index past it). */
  function Fetch(mem: seq<int>, ic: nat): Result<Option<Instruction>, Fault>
  {
    if ic >= |mem| then Failure(OutOfBounds(ic))
    else
      var i := Decode(mem[ic]);
      if i.op == Halt then Success(None)
      else if i.op == Unknown then Failure(UnknownOpcode(mem[ic], ic))
      else if ic + i.len > |mem| then Failure(OutOfBounds(|mem|))
      else Success(Some(i.(args := Args(mem, ic, i.len))))
  }

  /** What `next` returns: `None` exactly on a halt label, an exit on an
      unknown one, and otherwise the decoded instruction whose `len - 1`
      parameters are the words after the label, the others `None`. */
  lemma FetchSpec(mem: seq<int>, ic: nat)
    ensures ic >= |mem| ==> Fetch(mem, ic) == Failure(OutOfBounds(ic))
    ensures Fetch(mem, ic) == Success(None) <==> ic < |mem| && Decode(mem[ic]).op == Halt
    ensures ic < |mem| && Decode(mem[ic]).op == Unknown ==>
              Fetch(mem, ic) == Failure(UnknownOpcode(mem[ic], ic))
    ensures Fetch(mem, ic).Success? && Fetch(mem, ic).value.Some? ==>
              var i := Fetch(mem, ic).value.value;
              && i.op == Decode(mem[ic]).op && i.modes == Decode(mem[ic]).modes
              && i.len == Len(i.op) && ic + i.len <= |mem| && Fetched(i)
              && (forall k :: 0 <= k < i.len - 1 ==> i.args[k] == Some(mem[ic + k + 1]))
              && (forall k :: i.len - 1 <= k < 3 ==> i.args[k] == None)
  {
  }

  /** An instruction as `next` hands it to `execute`: a known opcode other
      than halt, and a parameter for each of its `len - 1` arguments. */
  predicate Fetched(i: Instruction)
  {
    && i.op !in {Halt, Unknown} && i.len == Len(i.op)
    && |i.args| == 3 && |i.modes| == 3
    && forall k :: 0 <= k < i.len - 1 ==> i.args[k].Some?
  }

  // ---------------------------------------------------------------------------
  // Execute

  /** `mem.read(address as usize)`. */
  function Load(mem: seq<int>, address: int): Result<int, Fault>
  {
    var u := AsUsize(address);
    if u < |mem| then Success(mem[u]) else Failure(OutOfBounds(u))
  }

  /** `mem.write(address as usize, v)`. */
  function Store(mem: seq<int>, address: int, v: int): Result<seq<int>, Fault>
  {
    var u := AsUsize(address);
    if u < |mem| then Success(mem[u := v]) else Failure(OutOfBounds(u))
  }

  /** An operand: the parameter itself in immediate mode, the word it
      addresses in position mode. */
  function Operand(mem: seq<int>, arg: int, mode: ParameterMode): Result<int, Fault>
  {
    match mode
    case Immediate => Success(arg)
    case Position => Load(mem, arg)
  }

  /** An `i32` sum or product, which panics when it overflows. */
  function Checked(v: int): (r: Result<int, Fault>)
  {
    if InI32(v) then Success(v) else Failure(Overflow(v))
  }

  /** The value Add, Mul, LessThan and Equals store. */
  function Combine(op: OpCode, a: int, b: int): Result<int, Fault>
    requires op in {Add, Mul, LessThan, Equals}
  {
    match op
    case Add => Checked(a + b)
    case Mul => Checked(a * b)
    case LessThan => Success(if a < b then 1 else 0)
    case Equals => Success(if a == b then 1 else 0)
  }

  /** `IntCode::execute` on a state whose counter `next` already advanced. */
  function Exec(s: State, i: Instruction): Result<Effect, Fault>
    requires Fetched(i)
  {
    match i.op
    case Input =>
      if s.input == [] then Failure(EmptyInput)
      else
        var mem :- Store(s.mem, i.args[0].value, s.input[0]);
        Success(Effect(State(mem, s.ic, s.input[1..]), None))
    case Output =>
      var v :- Load(s.mem, i.args[0].value);
      Success(Effect(s, Some(v)))
    case JumpIfTrue | JumpIfFalse =>
      var a :- Operand(s.mem, i.args[0].value, i.modes[0]);
      var b :- Operand(s.mem, i.args[1].value, i.modes[1]);
      Success(Effect(s.(ic := if (a != 0) == (i.op == JumpIfTrue) then AsUsize(b) else s.ic), None))
    case Add | Mul | LessThan | Equals =>
      var a :- Operand(s.mem, i.args[0].value, i.modes[0]);
      var b :- Operand(s.mem, i.args[1].value, i.modes[1]);
      var v :- Combine(i.op, a, b);
      var mem :- Store(s.mem, i.args[2].value, v);
      Success(Effect(s.(mem := mem), None))
  }

  /** One turn of `run_program`'s loop: fetch, advance, execute. `None` when
      the machine halts. */
  function Step(s: State): Result<Option<Effect>, Fault>
  {
    var f :- Fetch(s.mem, s.ic);
    match f
    case None => Success(None)
    case Some(i) =>
      var e :- Exec(s.(ic := s.ic + i.len), i);
      Success(Some(e))
  }

  datatype Halted = Halted(final: State, outputs: seq<int>)

  function Emitted(o: Option<int>): seq<int>
  {
    if o.Some? then [o.value] else []
  }

  /** `run_program`'s loop over a step function: steps until the machine
      halts, collecting the outputs in the order they are produced. `fuel`
      bounds the number of turns. */
  function Drive(step: State -> Result<Option<Effect>, Fault>, s: State, fuel: nat): Result<Halted, Fault>
    decreases fuel
  {
    if fuel == 0 then Failure(OutOfFuel)
    else
      match step(s)
      case Failure(f) => Failure(f)
      case Success(None) => Success(Halted(s, []))
      case Success(Some(e)) => After(e, Drive(step, e.next, fuel - 1))
  }

  /** The rest of a run after an instruction with effect `e`: its output
      goes first. */
  function After(e: Effect, rest: Result<Halted, Fault>): Result<Halted, Fault>
  {
    var h :- rest;
    Success(Halted(h.final, Emitted(e.output) + h.outputs))
  }

  /** `run_program`. */
  function Run(s: State, fuel: nat): Result<Halted, Fault>
  {
    Drive(Step, s, fuel)
  }

  // ---------------------------------------------------------------------------
  // Per-opcode properties

  /** Add, Mul, LessThan and Equals write exactly one word, at the third
      parameter taken as an address whatever its mode, and change nothing
      else; the word is the sum, the product or the 1/0 of a signed
      comparison of the two operands. */
  lemma WritesOneWord(s: State, i: Instruction)
    requires Fetched(i) && i.op in {Add, Mul, LessThan, Equals}
    requires Exec(s, i).Success?
    ensures var a, b := Operand(s.mem, i.args[0].value, i.modes[0]), Operand(s.mem, i.args[1].value, i.modes[1]);
            var e, dest := Exec(s, i).value, AsUsize(i.args[2].value);
            && a.Success? && b.Success? && dest < |s.mem|
            && e.output == None && e.next.ic == s.ic && e.next.input == s.input
            && |e.next.mem| == |s.mem|
            && (forall k :: 0 <= k < |s.mem| && k != dest ==> e.next.mem[k] == s.mem[k])
            && (i.op == Add ==> e.next.mem[dest] == a.value + b.value)
            && (i.op == Mul ==> e.next.mem[dest] == a.value * b.value)
            && (i.op == LessThan ==> e.next.mem[dest] == if a.value < b.value then 1 else 0)
            && (i.op == Equals ==> e.next.mem[dest] == if a.value == b.value then 1 else 0)
  {
  }

  /** An operand is the parameter itself in immediate mode and the word it
      addresses in position mode. */
  lemma OperandModes(mem: seq<int>, arg: int)
    ensures Operand(mem, arg, Immediate) == Success(arg)
    ensures 0 <= arg < |mem| ==> Operand(mem, arg, Position) == Success(mem[arg])
    ensures arg >= |mem| ==> Operand(mem, arg, Position) == Failure(OutOfBounds(arg))
  {
  }

  /** The third mode digit of a writing instruction and every mode digit of
      Output are never consulted. */
  lemma IgnoredModes(s: State, i: Instruction, modes: seq<ParameterMode>)
    requires Fetched(i) && |modes| == 3
    ensures i.op in {Add, Mul, LessThan, Equals} && modes[..2] == i.modes[..2] ==>
              Exec(s, i.(modes := modes)) == Exec(s, i)
    ensures i.op in {Input, Output} ==> Exec(s, i.(modes := modes)) == Exec(s, i)
  {
    assert modes[..2] == i.modes[..2] ==> modes[0] == i.modes[0] && modes[1] == i.modes[1] by {
      if modes[..2] == i.modes[..2] {
        assert modes[..2][0] == modes[0] && modes[..2][1] == modes[1];
      }
    }
  }

  /** A jump moves the counter to the second operand exactly when the first
      operand is non-zero (JumpIfTrue) or zero (JumpIfFalse), and otherwise
      leaves the counter `next` advanced; memory and input stay. */
  lemma JumpMovesCounter(s: State, i: Instruction)
    requires Fetched(i) && i.op in {JumpIfTrue, JumpIfFalse}
    requires Exec(s, i).Success?
    ensures var a, b := Operand(s.mem, i.args[0].value, i.modes[0]), Operand(s.mem, i.args[1].value, i.modes[1]);
            var e := Exec(s, i).value;
            var taken := if i.op == JumpIfTrue then a.value != 0 else a.value == 0;
            && a.Success? && b.Success?
            && e.next.mem == s.mem && e.next.input == s.input && e.output == None
            && e.next.ic == (if taken then AsUsize(b.value) else s.ic)
  {
  }

  /** Input takes the first pending value and stores it at its parameter;
      it fails exactly when no input is left or the address is out of
      range. */
  lemma InputConsumes(s: State, i: Instruction)
    requires Fetched(i) && i.op == Input
    ensures var dest := AsUsize(i.args[0].value);
            Exec(s, i).Success? <==> s.input != [] && dest < |s.mem|
    ensures s.input == [] ==> Exec(s, i) == Failure(EmptyInput)
    ensures Exec(s, i).Success? ==>
              Exec(s, i).value == Effect(State(s.mem[AsUsize(i.args[0].value) := s.input[0]], s.ic, s.input[1..]), None)
  {
  }

  /** Output emits the word its parameter addresses and changes nothing. */
  lemma OutputEmits(s: State, i: Instruction)
    requires Fetched(i) && i.op == Output
    ensures var dest := AsUsize(i.args[0].value);
            && (Exec(s, i).Success? <==> dest < |s.mem|)
            && (dest < |s.mem| ==> Exec(s, i) == Success(Effect(s, Some(s.mem[dest]))))
  {
  }

  // ---------------------------------------------------------------------------
  // Whole runs

  /** One step keeps the memory's size, and its words `i32` when the input
      is; it consumes at most the first input. */
  lemma StepKeeps(s: State)
    requires Step(s).Success? && Step(s).value.Some?
    ensures var n := Step(s).value.value.next;
            && |n.mem| == |s.mem|
            && (n.input == s.input || (s.input != [] && n.input == s.input[1..]))
            && (AllI32(s.mem) && AllI32(s.input) ==> AllI32(n.mem) && AllI32(n.input))
  {
    var i := Fetch(s.mem, s.ic).value.value;
    var t := s.(ic := s.ic + i.len);
    assert Step(s) == Success(Some(Exec(t, i).value));
    ExecKeeps(t, i);
  }

  /** `StepKeeps` for the execution alone. */
  lemma ExecKeeps(t: State, i: Instruction)
    requires Fetched(i) && Exec(t, i).Success?
    ensures var n := Exec(t, i).value.next;
            && |n.mem| == |t.mem|
            && (n.input == t.input || (t.input != [] && n.input == t.input[1..]))
            && (AllI32(t.mem) && AllI32(t.input) ==> AllI32(n.mem) && AllI32(n.input))
  {
    match i.op
    case Add | Mul | LessThan | Equals =>
      CombineKeeps(t, i);
    case Input =>
      InputConsumes(t, i);
    case Output =>
    case JumpIfTrue | JumpIfFalse =>
  }

  /** The word Add, Mul, LessThan or Equals stores is an `i32` when the
      memory's words are. */
  lemma CombineKeeps(t: State, i: Instruction)
    requires Fetched(i) && i.op in {Add, Mul, LessThan, Equals} && Exec(t, i).Success?
    ensures var n := Exec(t, i).value.next;
            && |n.mem| == |t.mem| && n.input == t.input
            && (AllI32(t.mem) ==> AllI32(n.mem))
  {
    WritesOneWord(t, i);
    var e := Exec(t, i).value;
    if AllI32(t.mem) {
      var dest := AsUsize(i.args[2].value);
      var a, b := Operand(t.mem, i.args[0].value, i.modes[0]), Operand(t.mem, i.args[1].value, i.modes[1]);
      assert Combine(i.op, a.value, b.value).Success?;
      assert e.next.mem[dest] == Combine(i.op, a.value, b.value).value;
      forall k | 0 <= k < |e.next.mem| ensures InI32(e.next.mem[k]) {
        if k != dest { assert e.next.mem[k] == t.mem[k]; }
      }
    }
  }

  /** A step is a fetch and then, with the counter advanced, an execution. */
  lemma StepExecutes(s: State, i: Instruction, e: Effect)
    requires Fetch(s.mem, s.ic) == Success(Some(i))
    requires Exec(s.(ic := s.ic + i.len), i) == Success(e)
    ensures Step(s) == Success(Some(e))
  {
  }

  /** A step fails with the fault of its fetch or of its execution. */
  lemma StepFails(s: State)
    requires var f := Fetch(s.mem, s.ic);
             f.Failure? || (f.value.Some? && Exec(s.(ic := s.ic + f.value.value.len), f.value.value).Failure?)
    ensures var f := Fetch(s.mem, s.ic);
            Step(s) == if f.Failure? then Failure(f.error)
                       else Failure(Exec(s.(ic := s.ic + f.value.value.len), f.value.value).error)
  {
  }

  /** A turn of `run_program` that executes an instruction continues with
      the rest of the run, its output first. */
  lemma RunStep(s: State, fuel: nat, e: Effect)
    requires fuel > 0 && Step(s) == Success(Some(e))
    ensures Run(s, fuel) == After(e, Run(e.next, fuel - 1))
  {
  }

  /** A turn that halts or faults ends the run there. */
  lemma RunStop(s: State, fuel: nat)
    requires fuel > 0 && !(Step(s).Success? && Step(s).value.Some?)
    ensures Step(s).Failure? ==> Run(s, fuel) == Failure(Step(s).error)
    ensures Step(s).Success? ==> Run(s, fuel) == Success(Halted(s, []))
  {
  }

  // ---------------------------------------------------------------------------
  // One step at a known label

  /** At an Add, Mul, LessThan or Equals label, a step stores the combined
      operands at the third parameter and moves the counter past it. */
  lemma StepCombine(s: State, op: OpCode, m1: ParameterMode, m2: ParameterMode, a: int, b: int, dst: nat, v: int)
    requires op in {Add, Mul, LessThan, Equals}
    requires s.ic + 4 <= |s.mem| && s.mem[s.ic] == Encode(op, m1, m2, Position)
    requires Operand(s.mem, s.mem[s.ic + 1], m1) == Success(a)
    requires Operand(s.mem, s.mem[s.ic + 2], m2) == Success(b)
    requires Combine(op, a, b) == Success(v)
    requires s.mem[s.ic + 3] == dst && dst < |s.mem|
    ensures Step(s) == Success(Some(Effect(State(s.mem[dst := v], s.ic + 4, s.input), None)))
  {
    DecodeEncode(op, m1, m2, Position);
    var i := Instruction(op, Args(s.mem, s.ic, 4), [m1, m2, Position], 4);
    assert Fetch(s.mem, s.ic) == Success(Some(i));
    assert i.args[0].value == s.mem[s.ic + 1] && i.args[1].value == s.mem[s.ic + 2]
        && i.args[2].value == s.mem[s.ic + 3];
    var t := s.(ic := s.ic + 4);
    ExecCombine(t, i, a, b, v);
    StepExecutes(s, i, Effect(t.(mem := t.mem[i.args[2].value := v]), None));
  }

  lemma ExecCombine(t: State, i: Instruction, a: int, b: int, v: int)
    requires Fetched(i) && i.op in {Add, Mul, LessThan, Equals}
    requires Operand(t.mem, i.args[0].value, i.modes[0]) == Success(a)
    requires Operand(t.mem, i.args[1].value, i.modes[1]) == Success(b)
    requires Combine(i.op, a, b) == Success(v) && 0 <= i.args[2].value < |t.mem|
    ensures Exec(t, i) == Success(Effect(t.(mem := t.mem[i.args[2].value := v]), None))
  {
  }

  /** At an Input label, a step stores the first input at its parameter and
      drops it from the input. */
  lemma StepInput(s: State, dst: nat)
    requires s.ic + 2 <= |s.mem| && s.mem[s.ic] == Encode(Input, Position, Position, Position)
    requires s.mem[s.ic + 1] == dst && dst < |s.mem| && s.input != []
    ensures Step(s) == Success(Some(Effect(State(s.mem[dst := s.input[0]], s.ic + 2, s.input[1..]), None)))
  {
    DecodeEncode(Input, Position, Position, Position);
    var i := Instruction(Input, Args(s.mem, s.ic, 2), [Position, Position, Position], 2);
    assert Fetch(s.mem, s.ic) == Success(Some(i));
  }

  /** At an Output label, a step emits the word its parameter addresses. */
  lemma StepOutput(s: State)
    requires s.ic + 2 <= |s.mem| && s.mem[s.ic] == Encode(Output, Position, Position, Position)
    requires 0 <= s.mem[s.ic + 1] < |s.mem|
    ensures Step(s) == Success(Some(Effect(s.(ic := s.ic + 2), Some(s.mem[s.mem[s.ic + 1]]))))
  {
    DecodeEncode(Output, Position, Position, Position);
    var i := Instruction(Output, Args(s.mem, s.ic, 2), [Position, Position, Position], 2);
    assert Fetch(s.mem, s.ic) == Success(Some(i));
  }

  /** At a halt label, the machine stops. */
  lemma StepHalt(s: State)
    requires s.ic < |s.mem| && s.mem[s.ic] == Encode(Halt, Position, Position, Position)
    ensures Step(s) == Success(None)
  {
    DecodeEncode(Halt, Position, Position, Position);
  }

  /** An Output label followed by a halt label: the run emits the addressed
      word and stops past the output. */
  lemma RunOutputHalt(s: State, fuel: nat)
    requires s.ic + 3 <= |s.mem| && s.mem[s.ic] == Encode(Output, Position, Position, Position)
    requires s.mem[s.ic + 2] == Encode(Halt, Position, Position, Position)
    requires 0 <= s.mem[s.ic + 1] < |s.mem| && fuel >= 2
    ensures Run(s, fuel) == Success(Halted(s.(ic := s.ic + 2), [s.mem[s.mem[s.ic + 1]]]))
  {
    StepOutput(s);
    StepHalt(s.(ic := s.ic + 2));
    DriveOutputHalt(Step, s, s.(ic := s.ic + 2), s.mem[s.mem[s.ic + 1]], fuel);
  }

  /** `RunOutputHalt` for any step function. */
  lemma DriveOutputHalt(step: State -> Result<Option<Effect>, Fault>, s: State, last: State, v: int, fuel: nat)
    requires step(s) == Success(Some(Effect(last, Some(v)))) && step(last) == Success(None) && fuel >= 2
    ensures Drive(step, s, fuel) == Success(Halted(last, [v]))
  {
    assert Drive(step, last, fuel - 1) == Success(Halted(last, []));
    assert [v] + [] == [v];
  }

  /** Each step of `trace` from index `lo` to index `hi` moves on to the
      next state and outputs nothing. */
  ghost predicate SilentFrom(step: State -> Result<Option<Effect>, Fault>, trace: seq<State>, lo: nat, hi: nat)
    requires lo <= hi < |trace|
  {
    forall k :: lo <= k < hi ==> step(trace[k]) == Success(Some(Effect(trace[k + 1], None)))
  }

  /** Two silent stretches that meet make one. */
  lemma SilentJoin(step: State -> Result<Option<Effect>, Fault>, trace: seq<State>, lo: nat, mid: nat, hi: nat)
    requires lo <= mid <= hi < |trace|
    requires SilentFrom(step, trace, lo, mid) && SilentFrom(step, trace, mid, hi)
    ensures SilentFrom(step, trace, lo, hi)
  {
  }

  /** Two silent steps in a row. */
  lemma SilentTwo(step: State -> Result<Option<Effect>, Fault>, trace: seq<State>, lo: nat)
    requires lo + 2 < |trace|
    requires step(trace[lo]) == Success(Some(Effect(trace[lo + 1], None)))
    requires step(trace[lo + 1]) == Success(Some(Effect(trace[lo + 2], None)))
    ensures SilentFrom(step, trace, lo, lo + 2)
  {
  }

  /** A stretch of steps that output nothing: the run from its first state
      is the run from its last, with `rest` of the fuel left. */
  lemma {:induction false} DriveSilent(step: State -> Result<Option<Effect>, Fault>, trace: seq<State>, lo: nat, fuel: nat, rest: nat)
    requires lo < |trace| && fuel == rest + (|trace| - 1 - lo)
    requires SilentFrom(step, trace, lo, |trace| - 1)
    ensures Drive(step, trace[lo], fuel) == Drive(step, trace[|trace| - 1], rest)
    decreases |trace| - lo
  {
    if lo < |trace| - 1 {
      assert step(trace[lo]) == Success(Some(Effect(trace[lo + 1], None)));
      DriveSilent(step, trace, lo + 1, fuel - 1, rest);
      var after := Drive(step, trace[lo + 1], fuel - 1);
      if after.Success? {
        assert [] + after.value.outputs == after.value.outputs;
      }
    }
  }

  /** What one step may change: the memory keeps its size, and its words
      stay `i32` when the input's are; the input loses at most its first
      value. */
  predicate Keeps(s: State, r: Result<Option<Effect>, Fault>)
  {
    r.Success? && r.value.Some? ==>
      var n := r.value.value.next;
      && |n.mem| == |s.mem|
      && (n.input == s.input || (s.input != [] && n.input == s.input[1..]))
      && (AllI32(s.mem) && AllI32(s.input) ==> AllI32(n.mem) && AllI32(n.input))
  }

  /** A run whose every step keeps that much ends with a memory of the size
      it started with, an unread suffix of its input, and `i32` words when
      it started with them. */
  lemma {:induction false} DriveKeeps(step: State -> Result<Option<Effect>, Fault>, s: State, fuel: nat)
    requires forall t :: Keeps(t, step(t))
    requires Drive(step, s, fuel).Success?
    ensures var f := Drive(step, s, fuel).value.final;
            && |f.mem| == |s.mem|
            && |f.input| <= |s.input| && f.input == s.input[|s.input| - |f.input|..]
            && (AllI32(s.mem) && AllI32(s.input) ==> AllI32(f.mem))
    decreases fuel
  {
    match step(s)
    case Success(None) =>
    case Success(Some(e)) =>
      assert Keeps(s, step(s));
      DriveKeeps(step, e.next, fuel - 1);
  }

  lemma RunKeeps(s: State, fuel: nat)
    requires Run(s, fuel).Success?
    ensures var f := Run(s, fuel).value.final;
            && |f.mem| == |s.mem|
            && |f.input| <= |s.input| && f.input == s.input[|s.input| - |f.input|..]
            && (AllI32(s.mem) && AllI32(s.input) ==> AllI32(f.mem))
  {
    forall t ensures Keeps(t, Step(t)) {
      if Step(t).Success? && Step(t).value.Some? { StepKeeps(t); }
    }
    DriveKeeps(Step, s, fuel);
  }

  /** More fuel changes nothing about a run that did not run out of it. */
  lemma {:induction false} DriveFuelMonotone(step: State -> Result<Option<Effect>, Fault>, s: State, fuel: nat, more: nat)
    requires Drive(step, s, fuel) != Failure(OutOfFuel)
    requires more >= fuel
    ensures Drive(step, s, more) == Drive(step, s, fuel)
    decreases fuel
  {
    match step(s)
    case Failure(_) =>
    case Success(None) =>
    case Success(Some(e)) => DriveFuelMonotone(step, e.next, fuel - 1, more - 1);
  }

  lemma RunFuelMonotone(s: State, fuel: nat, more: nat)
    requires Run(s, fuel) != Failure(OutOfFuel)
    requires more >= fuel
    ensures Run(s, more) == Run(s, fuel)
  {
    DriveFuelMonotone(Step, s, fuel, more);
  }
}
