/**
 * `amplifier_sequence` of intcode/src/main.rs: five copies of one program
 * run in series, each started on a fresh copy of the memory with its phase
 * and the previous amplifier's first output as input; the first amplifier
 * reads the signal 0.
 */
module IntcodeAmplifier {
  import opened Options
  import opened IntcodeSemantics
  import opened IntcodeMachine

  /** The signal that leaves the chain when amplifier `k` reads `signal`:
      amplifier `k` runs `program` on the input `[phases[k], signal]`, and the
      first word it outputs goes on to amplifier `k + 1`. Indexing a missing
      phase or an empty output panics in the Rust code. */
  function Chain(phases: seq<int>, program: seq<int>, fuel: nat, k: nat, signal: int): Result<int, Fault>
    requires k <= 5
    decreases 5 - k
  {
    if k == 5 then Success(signal)
    else if k >= |phases| then Failure(OutOfBounds(k))
    else
      var h :- Run(State(program, 0, [phases[k], signal]), fuel);
      if h.outputs == [] then Failure(NoOutput)
      else Chain(phases, program, fuel, k + 1, h.outputs[0])
  }

  /** The output of the fifth amplifier, the first reading 0. */
  function Amplified(phases: seq<int>, program: seq<int>, fuel: nat): Result<int, Fault>
  {
    Chain(phases, program, fuel, 0, 0)
  }

  /** An amplifier whose run succeeds passes its first output on to the
      next one. */
  lemma ChainPasses(phases: seq<int>, program: seq<int>, fuel: nat, k: nat, signal: int, out: int)
    requires k < 5 && k < |phases|
    requires var r := Run(State(program, 0, [phases[k], signal]), fuel);
             r.Success? && r.value.outputs != [] && r.value.outputs[0] == out
    ensures Chain(phases, program, fuel, k, signal) == Chain(phases, program, fuel, k + 1, out)
  {
  }

  /** Fuel enough for every amplifier's run is enough for the chain: more
      changes nothing. */
  lemma {:induction false} ChainFuelMonotone(phases: seq<int>, program: seq<int>, fuel: nat, more: nat, k: nat, signal: int)
    requires k <= 5 && more >= fuel
    requires Chain(phases, program, fuel, k, signal) != Failure(OutOfFuel)
    ensures Chain(phases, program, more, k, signal) == Chain(phases, program, fuel, k, signal)
    decreases 5 - k
  {
    if k < 5 && k < |phases| {
      var s := State(program, 0, [phases[k], signal]);
      RunFuelMonotone(s, fuel, more);
      var r := Run(s, fuel);
      if r.Success? && r.value.outputs != [] {
        ChainFuelMonotone(phases, program, fuel, more, k + 1, r.value.outputs[0]);
      }
    }
  }

  /** `amplifier_sequence`: runs the five amplifiers one after another, each
      on a fresh `Memory` holding a copy of `program`. */
  method AmplifierSequence(phases: seq<int>, program: seq<int>, fuel: nat) returns (r: Result<int, Fault>)
    ensures r == Amplified(phases, program, fuel)
  {
    var output := 0;
    for x := 0 to 5
      invariant Chain(phases, program, fuel, x, output) == Amplified(phases, program, fuel)
    {
      if x >= |phases| {
        return Failure(OutOfBounds(x));
      }
      var memory := new Memory(program);
      var intcode := new IntCode(memory);
      var outputs, _ := intcode.RunProgram([phases[x], output], fuel);
      if outputs.Failure? {
        return Failure(outputs.error);
      }
      if outputs.value == [] {
        return Failure(NoOutput);
      }
      output := outputs.value[0];
    }
    r := Success(output);
  }
}
