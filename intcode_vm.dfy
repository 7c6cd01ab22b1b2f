/**
 * The Intcode machine of intcode/src/main.rs as it runs: a `Memory` whose
 * words are updated in place, and an `IntCode` that holds the memory and the
 * instruction counter, fetches (`next`) and executes instructions, and runs a
 * program to its halt. Each method is proved against the value semantics of
 * `IntcodeSemantics`; a panic or an exit of the Rust code is returned as a
 * `Fault`.
 */
module IntcodeMachine {
  import opened Options
  import opened IntcodeDecode
  import opened IntcodeSemantics

  /** `Memory`: a fixed number of words. */
  class Memory {
    const bucket: array<int>

    /** A memory holding a copy of `contents`, as `amplifier_sequence`
        builds one for each amplifier. */
    constructor (contents: seq<int>)
      ensures bucket[..] == contents && fresh(bucket)
    {
      bucket := new int[|contents|](k requires 0 <= k < |contents| => contents[k]);
    }

    /** `read`: the word at `index`; an index past the end panics. */
    function Read(index: nat): (v: int)
      reads bucket
      requires index < bucket.Length
      ensures v == bucket[..][index]
    {
      bucket[index]
    }

    /** `write`: the word at `index` reads back as `value`; every other word
        and the size stay. */
    method Write(index: nat, value: int)
      requires index < bucket.Length
      modifies bucket
      ensures Read(index) == value
      ensures forall k :: 0 <= k < bucket.Length && k != index ==> Read(k) == old(Read(k))
      ensures bucket[..] == old(bucket[..])[index := value]
    {
      bucket[index] := value;
    }
  }

  /** A run before the turns that produced `output`, given the rest of it. */
  function Prefixed(output: seq<int>, rest: Result<Halted, Fault>): Result<Halted, Fault>
  {
    var h :- rest;
    Success(Halted(h.final, output + h.outputs))
  }

  lemma PrefixedNothing(rest: Result<Halted, Fault>)
    ensures Prefixed([], rest) == rest
  {
    if rest.Success? {
      assert [] + rest.value.outputs == rest.value.outputs;
    }
  }

  lemma PrefixedAfter(output: seq<int>, e: Effect, rest: Result<Halted, Fault>)
    ensures Prefixed(output, After(e, rest)) == Prefixed(output + Emitted(e.output), rest)
  {
    if rest.Success? {
      assert output + (Emitted(e.output) + rest.value.outputs)
          == (output + Emitted(e.output)) + rest.value.outputs;
    }
  }

  /** The run from `start` is the run from `s`, with `left` turns to go,
      after the outputs `output`. */
  ghost predicate Resumes(start: State, fuel: nat, output: seq<int>, s: State, left: nat)
  {
    Run(start, fuel) == Prefixed(output, Run(s, left))
  }

  /** A turn that executes moves the run forward by one: what it emits
      joins the outputs before the rest of the run. */
  lemma RunAdvance(start: State, fuel: nat, output: seq<int>, s: State, was: nat, left: nat,
                   i: Instruction, next: State, emitted: Option<int>)
    requires was == left + 1 && Fetch(s.mem, s.ic) == Success(Some(i))
    requires Exec(s.(ic := s.ic + i.len), i) == Success(Effect(next, emitted))
    requires Resumes(start, fuel, output, s, was)
    ensures Resumes(start, fuel, output + Emitted(emitted), next, left)
  {
    StepExecutes(s, i, Effect(next, emitted));
    DriveResumes(Step, start, fuel, output, s, was, left, Effect(next, emitted));
  }

  /** `RunAdvance` for any step function. */
  lemma DriveResumes(step: State -> Result<Option<Effect>, Fault>, start: State, fuel: nat, output: seq<int>,
                     s: State, was: nat, left: nat, e: Effect)
    requires was == left + 1 && step(s) == Success(Some(e))
    requires Drive(step, start, fuel) == Prefixed(output, Drive(step, s, was))
    ensures Drive(step, start, fuel) == Prefixed(output + Emitted(e.output), Drive(step, e.next, left))
  {
    assert Drive(step, s, was) == After(e, Drive(step, e.next, left));
    PrefixedAfter(output, e, Drive(step, e.next, left));
  }

  /** `IntCode`: the machine's memory and its instruction counter. */
  class IntCode {
    const mem: Memory
    var ic: nat

    constructor (mem: Memory)
      ensures this.mem == mem && ic == 0
    {
      this.mem := mem;
      ic := 0;
    }

    /** The machine as a value, with the input it has not read yet. */
    function State(input: seq<int>): IntcodeSemantics.State
      reads this, mem.bucket
    {
      IntcodeSemantics.State(mem.bucket[..], ic, input)
    }

    /** `next`: decodes the label at the counter, reads its parameters and
        moves the counter past them; on a halt the counter stays. */
    method Next() returns (r: Result<Option<Instruction>, Fault>)
      modifies this
      ensures r == Fetch(mem.bucket[..], old(ic))
      ensures ic == if r.Success? && r.value.Some? then old(ic) + r.value.value.len else old(ic)
    {
      if ic >= mem.bucket.Length {
        return Failure(OutOfBounds(ic));
      }
      var instruction := NewInstruction(mem.Read(ic));
      if instruction.op == Halt {
        return Success(None);
      }
      if instruction.op == Unknown {
        return Failure(UnknownOpcode(mem.Read(ic), ic));
      }
      ghost var m := mem.bucket[..];
      var args := instruction.args;
      for i := 0 to instruction.len - 1
        invariant ic + i < mem.bucket.Length && |args| == 3
        invariant forall k :: 0 <= k < i ==> args[k] == Some(m[ic + k + 1])
        invariant forall k :: i <= k < 3 ==> args[k] == None
      {
        if ic + (i + 1) >= mem.bucket.Length {
          return Failure(OutOfBounds(ic + (i + 1)));
        }
        args := args[i := Some(mem.Read(ic + (i + 1)))];
      }
      assert args == Args(m, ic, instruction.len);
      r := Success(Some(instruction.(args := args)));
      ic := ic + instruction.len;
    }

    /** An operand: the parameter in immediate mode, the word it addresses
        in position mode. */
    method Resolve(arg: int, mode: ParameterMode) returns (r: Result<int, Fault>)
      ensures r == Operand(mem.bucket[..], arg, mode)
    {
      match mode
      case Immediate =>
        r := Success(arg);
      case Position =>
        var u := AsUsize(arg);
        if u < mem.bucket.Length {
          r := Success(mem.Read(u));
        } else {
          r := Failure(OutOfBounds(u));
        }
    }

    /** `mem.write(address as usize, value)`. */
    method Store(address: int, value: int) returns (fault: Option<Fault>)
      modifies mem.bucket
      ensures var r := IntcodeSemantics.Store(old(mem.bucket[..]), address, value);
              && (r.Failure? ==> fault == Some(r.error) && mem.bucket[..] == old(mem.bucket[..]))
              && (r.Success? ==> fault == None && mem.bucket[..] == r.value)
    {
      var u := AsUsize(address);
      if u < mem.bucket.Length {
        mem.Write(u, value);
        fault := None;
      } else {
        fault := Some(OutOfBounds(u));
      }
    }

    /** `add`, `mul`, `less_than` and `equal`: combine two operands and
        store the result at the third parameter. */
    method Combined(i: Instruction) returns (fault: Option<Fault>)
      requires Fetched(i) && i.op in {Add, Mul, LessThan, Equals}
      modifies mem.bucket
      ensures var e := Exec(old(State([])), i);
              && (e.Failure? ==> fault == Some(e.error))
              && (e.Success? ==> fault == None && mem.bucket[..] == e.value.next.mem)
    {
      var op1 := Resolve(i.args[0].value, i.modes[0]);
      if op1.Failure? { return Some(op1.error); }
      var op2 := Resolve(i.args[1].value, i.modes[1]);
      if op2.Failure? { return Some(op2.error); }
      var value := Combine(i.op, op1.value, op2.value);
      if value.Failure? { return Some(value.error); }
      fault := Store(i.args[2].value, value.value);
    }

    /** `jump_if_true` and `jump_if_false`: set the counter to the second
        operand when the first is non-zero, respectively zero. */
    method Jump(i: Instruction) returns (fault: Option<Fault>)
      requires Fetched(i) && i.op in {JumpIfTrue, JumpIfFalse}
      modifies this
      ensures var e := Exec(old(State([])), i);
              && (e.Failure? ==> fault == Some(e.error))
              && (e.Success? ==> fault == None && ic == e.value.next.ic)
    {
      var op1 := Resolve(i.args[0].value, i.modes[0]);
      if op1.Failure? { return Some(op1.error); }
      var op2 := Resolve(i.args[1].value, i.modes[1]);
      if op2.Failure? { return Some(op2.error); }
      if (op1.value != 0) == (i.op == JumpIfTrue) {
        ic := AsUsize(op2.value);
      }
      fault := None;
    }

    /** `execute`: one instruction whose counter `next` already advanced;
        Input takes the first of `input`, Output yields a word. */
    method Execute(i: Instruction, input: seq<int>) returns (r: Result<Option<int>, Fault>, rest: seq<int>)
      requires Fetched(i)
      modifies this, mem.bucket
      ensures var e := Exec(old(State(input)), i);
              && (e.Failure? ==> r == Failure(e.error))
              && (e.Success? ==> r == Success(e.value.output) && State(rest) == e.value.next)
    {
      rest := input;
      match i.op
      case Add | Mul | LessThan | Equals =>
        var fault := Combined(i);
        r := if fault.Some? then Failure(fault.value) else Success(None);
      case JumpIfTrue | JumpIfFalse =>
        var fault := Jump(i);
        r := if fault.Some? then Failure(fault.value) else Success(None);
      case Input =>
        if input == [] {
          return Failure(EmptyInput), rest;
        }
        rest := input[1..];
        var fault := Store(i.args[0].value, input[0]);
        r := if fault.Some? then Failure(fault.value) else Success(None);
      case Output =>
        var u := AsUsize(i.args[0].value);
        if u < mem.bucket.Length {
          r := Success(Some(mem.Read(u)));
        } else {
          r := Failure(OutOfBounds(u));
        }
    }

    /** `run_program`: fetches and executes until a halt, returning the
        outputs in the order they were produced; the pending input is
        consumed from the front. At most `fuel` turns. */
    method RunProgram(input: seq<int>, fuel: nat) returns (r: Result<seq<int>, Fault>, rest: seq<int>)
      modifies this, mem.bucket
      ensures var run := Run(old(State(input)), fuel);
              && (run.Failure? ==> r == Failure(run.error))
              && (run.Success? ==> r == Success(run.value.outputs) && State(rest) == run.value.final)
    {
      ghost var start := State(input);
      ghost var cur := start;
      var output: seq<int> := [];
      var left := fuel;
      rest := input;
      PrefixedNothing(Run(start, fuel));
      while true
        invariant cur == State(rest)
        invariant Resumes(start, fuel, output, cur, left)
        decreases left
      {
        if left == 0 {
          return Failure(OutOfFuel), rest;
        }
        var next := Next();
        if next.Failure? {
          StepFails(cur);
          RunStop(cur, left);
          return Failure(next.error), rest;
        }
        if next.value.None? {
          RunStop(cur, left);
          assert output + [] == output;
          r := Success(output);
          return;
        }
        var i := next.value.value;
        var result, remaining := Execute(i, rest);
        if result.Failure? {
          StepFails(cur);
          RunStop(cur, left);
          return Failure(result.error), remaining;
        }
        ghost var was, after := left, State(remaining);
        left := left - 1;
        RunAdvance(start, fuel, output, cur, was, left, i, after, result.value);
        output := output + Emitted(result.value);
        rest := remaining;
        cur := after;
      }
    }
  }
}
