/**
 * The unit tests of intcode/src/main.rs as lemmas about the model: the
 * fixture memory's first three instructions, the equality program, and the
 * three amplifier chains.
 */
module IntcodeExamples {
  import opened Options
  import opened IntcodeDecode
  import opened IntcodeSemantics
  import opened IntcodeAmplifier

  // ---------------------------------------------------------------------------
  // `get_instruction`, `get_multiple_instructions` and `compound_opcode`:
  // successive `next` calls on the fixture memory, each moving the counter
  // by four

  const Fixture := [1, 10, 11, 12, 2, 12, 10, 12, 101, 0, 1, 8, 99, 10, 3, 0, 0]

  lemma GetInstruction()
    ensures Fetch(Fixture, 0)
         == Success(Some(Instruction(Add, [Some(10), Some(11), Some(12)], [Position, Position, Position], 4)))
  {
    DecodeEncode(Add, Position, Position, Position);
    assert Args(Fixture, 0, 4) == [Some(10), Some(11), Some(12)];
  }

  lemma GetMultipleInstructions()
    ensures Fetch(Fixture, 4)
         == Success(Some(Instruction(Mul, [Some(12), Some(10), Some(12)], [Position, Position, Position], 4)))
  {
    DecodeEncode(Mul, Position, Position, Position);
    assert Args(Fixture, 4, 4) == [Some(12), Some(10), Some(12)];
  }

  lemma CompoundOpcode()
    ensures Fetch(Fixture, 8)
         == Success(Some(Instruction(Add, [Some(0), Some(1), Some(8)], [Immediate, Position, Position], 4)))
  {
    DecodeEncode(Add, Immediate, Position, Position);
    assert Args(Fixture, 8, 4) == [Some(0), Some(1), Some(8)];
  }

  // ---------------------------------------------------------------------------
  // `execution`: a program that outputs whether its input equals 8

  const Compare0 := State([3, 9, 8, 9, 10, 9, 4, 9, 99, -1, 8], 0, [7])
  const Compare1 := State([3, 9, 8, 9, 10, 9, 4, 9, 99, 7, 8], 2, [])
  const Compare2 := State([3, 9, 8, 9, 10, 9, 4, 9, 99, 0, 8], 6, [])
  const Compare3 := State([3, 9, 8, 9, 10, 9, 4, 9, 99, 0, 8], 8, [])

  lemma CompareReads()
    ensures Step(Compare0) == Success(Some(Effect(Compare1, None)))
  {
    var s := Compare0;
    DecodeEncode(Input, Position, Position, Position);
    assert s.mem[9 := 7] == Compare1.mem;
    assert s.input[1..] == [];
    var i := Fetch(s.mem, 0);
    assert i == Success(Some(Instruction(Input, Args(s.mem, 0, 2), [Position, Position, Position], 2)));
    assert Args(s.mem, 0, 2)[0] == Some(9);
    assert Exec(s.(ic := 2), i.value.value) == Success(Effect(Compare1, None));
  }

  lemma CompareTests()
    ensures Step(Compare1) == Success(Some(Effect(Compare2, None)))
  {
    var s := Compare1;
    DecodeEncode(Equals, Position, Position, Position);
    assert s.mem[9 := 0] == Compare2.mem;
    var i := Fetch(s.mem, 2);
    assert i == Success(Some(Instruction(Equals, Args(s.mem, 2, 4), [Position, Position, Position], 4)));
    assert Args(s.mem, 2, 4) == [Some(9), Some(10), Some(9)];
    assert Exec(s.(ic := 6), i.value.value) == Success(Effect(Compare2, None));
  }

  lemma CompareWrites()
    ensures Step(Compare2) == Success(Some(Effect(Compare3, Some(0))))
  {
    var s := Compare2;
    DecodeEncode(Output, Position, Position, Position);
    var i := Fetch(s.mem, 6);
    assert i == Success(Some(Instruction(Output, Args(s.mem, 6, 2), [Position, Position, Position], 2)));
    assert Args(s.mem, 6, 2)[0] == Some(9);
    assert Exec(s.(ic := 8), i.value.value) == Success(Effect(Compare3, Some(0)));
  }

  lemma CompareHalts()
    ensures Step(Compare3) == Success(None)
  {
    DecodeEncode(Halt, Position, Position, Position);
    assert Compare3.mem[8] == 99;
  }

  /** `execution`: the input 7 is not 8, so the program outputs 0. */
  lemma Execution()
    ensures var r := Run(Compare0, 5);
            r.Success? && r.value.outputs == [0]
  {
    CompareReads();
    RunStep(Compare0, 5, Effect(Compare1, None));
    CompareTests();
    RunStep(Compare1, 4, Effect(Compare2, None));
    CompareWrites();
    RunStep(Compare2, 3, Effect(Compare3, Some(0)));
    CompareHalts();
    RunStop(Compare3, 2);
  }

  // ---------------------------------------------------------------------------
  // The amplifier programs, run on a phase `p` and a signal `x`

  /** A phase and a signal small enough that no program below overflows an
      `i32`. */
  predicate Small(p: int, x: int)
  {
    -1000 <= p <= 1000 && -100_000_000 <= x <= 100_000_000
  }

  const Short := [3, 15, 3, 16, 1002, 16, 10, 16, 1, 16, 15, 15, 4, 15, 99, 0, 0]

  /** A memory of 17 words holding the instructions of `amplifier_short`'s
      program, whatever its data words hold. */
  predicate ShortCode(m: seq<int>)
  {
    && |m| == 17
    && m[0] == 3 && m[1] == 15 && m[2] == 3 && m[3] == 16
    && m[4] == 1002 && m[5] == 16 && m[6] == 10 && m[7] == 16
    && m[8] == 1 && m[9] == 16 && m[10] == 15 && m[11] == 15
    && m[12] == 4 && m[13] == 15 && m[14] == 99
  }

  lemma ShortIsCode()
    ensures ShortCode(Short)
  {
    var m := Short;
    assert |m| == 17
      && m[0] == 3 && m[1] == 15 && m[2] == 3 && m[3] == 16
      && m[4] == 1002 && m[5] == 16 && m[6] == 10 && m[7] == 16
      && m[8] == 1 && m[9] == 16 && m[10] == 15 && m[11] == 15
      && m[12] == 4 && m[13] == 15 && m[14] == 99;
  }

  /** The states `amplifier_short`'s program passes through, from the start
      to its output instruction, on the phase `p` and the signal `x`. */
  function ShortTrace(m: seq<int>, p: int, x: int): seq<State>
    requires |m| == 17
  {
    var m2 := m[15 := p][16 := x];
    var m3 := m2[16 := 10 * x];
    [State(m, 0, [p, x]), State(m[15 := p], 2, [x]), State(m2, 4, []), State(m3, 8, []),
     State(m3[15 := 10 * x + p], 12, [])]
  }

  /** The two Input instructions read the phase and then the signal. */
  lemma ShortReads(m: seq<int>, p: int, x: int)
    requires ShortCode(m) && Small(p, x)
    ensures SilentFrom(Step, ShortTrace(m, p, x), 0, 2)
  {
    var t := ShortTrace(m, p, x);
    assert [p, x][1..] == [x] && [x][1..] == [];
    StepInput(t[0], 15);
    StepInput(t[1], 16);
    SilentTwo(Step, t, 0);
  }

  lemma ShortSteps(m: seq<int>, p: int, x: int)
    requires ShortCode(m) && Small(p, x)
    ensures SilentFrom(Step, ShortTrace(m, p, x), 2, 4)
  {
    var t := ShortTrace(m, p, x);
    StepCombine(t[2], Mul, Position, Immediate, x, 10, 16, 10 * x);
    StepCombine(t[3], Add, Position, Position, 10 * x, p, 15, 10 * x + p);
    SilentTwo(Step, t, 2);
  }

  /** The trace ends on the output of the result, then the halt. */
  lemma ShortEnd(m: seq<int>, p: int, x: int, rest: nat)
    requires |m| == 17 && m[12] == 4 && m[13] == 15 && m[14] == 99 && rest >= 2
    ensures var r := Run(ShortTrace(m, p, x)[4], rest);
            r.Success? && r.value.outputs == [10 * x + p]
  {
    var t := ShortTrace(m, p, x);
    assert t[4].ic == 12 && t[4].mem[13] == 15 && t[4].mem[15] == 10 * x + p;
    RunOutputHalt(t[4], rest);
  }

  /** Every step of the trace before the output moves on silently. */
  lemma ShortSilent(m: seq<int>, p: int, x: int)
    requires ShortCode(m) && Small(p, x)
    ensures SilentFrom(Step, ShortTrace(m, p, x), 0, 4)
  {
    var t := ShortTrace(m, p, x);
    ShortReads(m, p, x);
    ShortSteps(m, p, x);
    SilentJoin(Step, t, 0, 2, 4);
  }

  /** Up to its output, the program's run is the run from the last state
      of the trace, 4 turns later. */
  lemma ShortDrive(m: seq<int>, p: int, x: int, fuel: nat, rest: nat)
    requires ShortCode(m) && Small(p, x) && fuel == rest + 4
    ensures Run(State(m, 0, [p, x]), fuel) == Run(ShortTrace(m, p, x)[4], rest)
  {
    var t := ShortTrace(m, p, x);
    ShortSilent(m, p, x);
    DriveSilent(Step, t, 0, fuel, rest);
    assert t[0] == State(m, 0, [p, x]);
  }

  /** The program of `amplifier_short` outputs `10 * x + p`. */
  lemma ShortRun(m: seq<int>, p: int, x: int, fuel: nat)
    requires ShortCode(m) && Small(p, x) && fuel >= 6
    ensures var r := Run(State(m, 0, [p, x]), fuel);
            r.Success? && r.value.outputs == [10 * x + p]
  {
    var rest := fuel - 4;
    ShortDrive(m, p, x, fuel, rest);
    ShortEnd(m, p, x, rest);
  }

  const Medium := [3, 23, 3, 24, 1002, 24, 10, 24, 1002, 23, -1, 23, 101, 5, 23, 23, 1, 24, 23, 23, 4, 23, 99, 0, 0]

  /** A memory of 25 words holding the instructions of `amplifier_medium`'s
      program, whatever its data words hold. */
  predicate MediumCode(m: seq<int>)
  {
    && |m| == 25
    && m[0] == 3 && m[1] == 23 && m[2] == 3 && m[3] == 24
    && m[4] == 1002 && m[5] == 24 && m[6] == 10 && m[7] == 24
    && m[8] == 1002 && m[9] == 23 && m[10] == -1 && m[11] == 23
    && m[12] == 101 && m[13] == 5 && m[14] == 23 && m[15] == 23
    && m[16] == 1 && m[17] == 24 && m[18] == 23 && m[19] == 23
    && m[20] == 4 && m[21] == 23 && m[22] == 99
  }

  lemma MediumIsCode()
    ensures MediumCode(Medium)
  {
    var m := Medium;
    assert |m| == 25
      && m[0] == 3 && m[1] == 23 && m[2] == 3 && m[3] == 24
      && m[4] == 1002 && m[5] == 24 && m[6] == 10 && m[7] == 24
      && m[8] == 1002 && m[9] == 23 && m[10] == -1 && m[11] == 23
      && m[12] == 101 && m[13] == 5 && m[14] == 23 && m[15] == 23
      && m[16] == 1 && m[17] == 24 && m[18] == 23 && m[19] == 23
      && m[20] == 4 && m[21] == 23 && m[22] == 99;
  }

  /** The states `amplifier_medium`'s program passes through, from the start
      to its output instruction. */
  function MediumTrace(m: seq<int>, p: int, x: int): seq<State>
    requires |m| == 25
  {
    var m2 := m[23 := p][24 := x];
    var m3 := m2[24 := 10 * x];
    var m4 := m3[23 := -p];
    var m5 := m4[23 := 5 - p];
    [State(m, 0, [p, x]), State(m[23 := p], 2, [x]), State(m2, 4, []), State(m3, 8, []),
     State(m4, 12, []), State(m5, 16, []), State(m5[23 := 10 * x + (5 - p)], 20, [])]
  }

  lemma MediumReads(m: seq<int>, p: int, x: int)
    requires MediumCode(m) && Small(p, x)
    ensures SilentFrom(Step, MediumTrace(m, p, x), 0, 2)
  {
    var t := MediumTrace(m, p, x);
    assert [p, x][1..] == [x] && [x][1..] == [];
    StepInput(t[0], 23);
    StepInput(t[1], 24);
    SilentTwo(Step, t, 0);
  }

  lemma MediumSteps(m: seq<int>, p: int, x: int)
    requires MediumCode(m) && Small(p, x)
    ensures SilentFrom(Step, MediumTrace(m, p, x), 2, 4)
  {
    var t := MediumTrace(m, p, x);
    StepCombine(t[2], Mul, Position, Immediate, x, 10, 24, 10 * x);
    StepCombine(t[3], Mul, Position, Immediate, p, -1, 23, -p);
    SilentTwo(Step, t, 2);
  }

  lemma MediumStepsEnd(m: seq<int>, p: int, x: int)
    requires MediumCode(m) && Small(p, x)
    ensures SilentFrom(Step, MediumTrace(m, p, x), 4, 6)
  {
    var t := MediumTrace(m, p, x);
    StepCombine(t[4], Add, Immediate, Position, 5, -p, 23, 5 - p);
    StepCombine(t[5], Add, Position, Position, 10 * x, 5 - p, 23, 10 * x + (5 - p));
    SilentTwo(Step, t, 4);
  }

  /** The trace ends on the output of the result, then the halt. */
  lemma MediumEnd(m: seq<int>, p: int, x: int, rest: nat)
    requires |m| == 25 && m[20] == 4 && m[21] == 23 && m[22] == 99 && rest >= 2
    ensures var r := Run(MediumTrace(m, p, x)[6], rest);
            r.Success? && r.value.outputs == [10 * x + (5 - p)]
  {
    var t := MediumTrace(m, p, x);
    assert t[6].ic == 20 && t[6].mem[21] == 23 && t[6].mem[23] == 10 * x + (5 - p);
    RunOutputHalt(t[6], rest);
  }

  /** Every step of the trace before the output moves on silently. */
  lemma MediumSilent(m: seq<int>, p: int, x: int)
    requires MediumCode(m) && Small(p, x)
    ensures SilentFrom(Step, MediumTrace(m, p, x), 0, 6)
  {
    var t := MediumTrace(m, p, x);
    MediumReads(m, p, x);
    MediumSteps(m, p, x);
    MediumStepsEnd(m, p, x);
    SilentJoin(Step, t, 0, 2, 4);
    SilentJoin(Step, t, 0, 4, 6);
  }

  /** Up to its output, the program's run is the run from the last state
      of the trace, 6 turns later. */
  lemma MediumDrive(m: seq<int>, p: int, x: int, fuel: nat, rest: nat)
    requires MediumCode(m) && Small(p, x) && fuel == rest + 6
    ensures Run(State(m, 0, [p, x]), fuel) == Run(MediumTrace(m, p, x)[6], rest)
  {
    var t := MediumTrace(m, p, x);
    MediumSilent(m, p, x);
    DriveSilent(Step, t, 0, fuel, rest);
    assert t[0] == State(m, 0, [p, x]);
  }

  /** The program of `amplifier_medium` outputs `10 * x + 5 - p`. */
  lemma MediumRun(m: seq<int>, p: int, x: int, fuel: nat)
    requires MediumCode(m) && Small(p, x) && fuel >= 8
    ensures var r := Run(State(m, 0, [p, x]), fuel);
            r.Success? && r.value.outputs == [10 * x + 5 - p]
  {
    var rest := fuel - 6;
    MediumDrive(m, p, x, fuel, rest);
    MediumEnd(m, p, x, rest);
  }

  const Long := [3, 31, 3, 32, 1002, 32, 10, 32, 1001, 31, -2, 31, 1007, 31, 0, 33,
                 1002, 33, 7, 33, 1, 33, 31, 31, 1, 32, 31, 31, 4, 31, 99, 0, 0, 0]

  /** A memory of 34 words holding the instructions of `amplifier_long`'s
      program, whatever its data words hold. */
  predicate LongCode(m: seq<int>)
  {
    && |m| == 34
    && m[0] == 3 && m[1] == 31 && m[2] == 3 && m[3] == 32
    && m[4] == 1002 && m[5] == 32 && m[6] == 10 && m[7] == 32
    && m[8] == 1001 && m[9] == 31 && m[10] == -2 && m[11] == 31
    && m[12] == 1007 && m[13] == 31 && m[14] == 0 && m[15] == 33
    && m[16] == 1002 && m[17] == 33 && m[18] == 7 && m[19] == 33
    && m[20] == 1 && m[21] == 33 && m[22] == 31 && m[23] == 31
    && m[24] == 1 && m[25] == 32 && m[26] == 31 && m[27] == 31
    && m[28] == 4 && m[29] == 31 && m[30] == 99
  }

  lemma LongIsCode()
    ensures LongCode(Long)
  {
    LongHeadIsCode();
    LongTailIsCode();
  }

  lemma LongHeadIsCode()
    ensures var m := Long;
      && |m| == 34
      && m[0] == 3 && m[1] == 31 && m[2] == 3 && m[3] == 32
      && m[4] == 1002 && m[5] == 32 && m[6] == 10 && m[7] == 32
      && m[8] == 1001 && m[9] == 31 && m[10] == -2 && m[11] == 31
      && m[12] == 1007 && m[13] == 31 && m[14] == 0 && m[15] == 33
  {
    var m := Long;
    assert |m| == 34
      && m[0] == 3 && m[1] == 31 && m[2] == 3 && m[3] == 32
      && m[4] == 1002 && m[5] == 32 && m[6] == 10 && m[7] == 32
      && m[8] == 1001 && m[9] == 31 && m[10] == -2 && m[11] == 31
      && m[12] == 1007 && m[13] == 31 && m[14] == 0 && m[15] == 33;
  }

  lemma LongTailIsCode()
    ensures var m := Long;
      && m[16] == 1002 && m[17] == 33 && m[18] == 7 && m[19] == 33
      && m[20] == 1 && m[21] == 33 && m[22] == 31 && m[23] == 31
      && m[24] == 1 && m[25] == 32 && m[26] == 31 && m[27] == 31
      && m[28] == 4 && m[29] == 31 && m[30] == 99
  {
    var m := Long;
    assert m[16] == 1002 && m[17] == 33 && m[18] == 7 && m[19] == 33
      && m[20] == 1 && m[21] == 33 && m[22] == 31 && m[23] == 31
      && m[24] == 1 && m[25] == 32 && m[26] == 31 && m[27] == 31
      && m[28] == 4 && m[29] == 31 && m[30] == 99;
  }

  /** Whether `amplifier_long`'s program adds 7: its phase is below 2. */
  function Below(p: int): int
  {
    if p - 2 < 0 then 1 else 0
  }

  /** The states `amplifier_long`'s program passes through, from the start
      to its output instruction. */
  function LongTrace(m: seq<int>, p: int, x: int): seq<State>
    requires |m| == 34
  {
    var m2 := m[31 := p][32 := x];
    var m3 := m2[32 := 10 * x];
    var m4 := m3[31 := p - 2];
    var m5 := m4[33 := Below(p)];
    var m6 := m5[33 := 7 * Below(p)];
    var m7 := m6[31 := 7 * Below(p) + (p - 2)];
    [State(m, 0, [p, x]), State(m[31 := p], 2, [x]), State(m2, 4, []), State(m3, 8, []),
     State(m4, 12, []), State(m5, 16, []), State(m6, 20, []), State(m7, 24, []),
     State(m7[31 := 10 * x + (7 * Below(p) + (p - 2))], 28, [])]
  }

  lemma LongReads(m: seq<int>, p: int, x: int)
    requires LongCode(m) && Small(p, x)
    ensures SilentFrom(Step, LongTrace(m, p, x), 0, 2)
  {
    var t := LongTrace(m, p, x);
    assert [p, x][1..] == [x] && [x][1..] == [];
    StepInput(t[0], 31);
    StepInput(t[1], 32);
    SilentTwo(Step, t, 0);
  }

  lemma LongSteps(m: seq<int>, p: int, x: int)
    requires LongCode(m) && Small(p, x)
    ensures SilentFrom(Step, LongTrace(m, p, x), 2, 4)
  {
    var t := LongTrace(m, p, x);
    StepCombine(t[2], Mul, Position, Immediate, x, 10, 32, 10 * x);
    StepCombine(t[3], Add, Position, Immediate, p, -2, 31, p - 2);
    SilentTwo(Step, t, 2);
  }

  lemma LongStepsMid(m: seq<int>, p: int, x: int)
    requires LongCode(m) && Small(p, x)
    ensures SilentFrom(Step, LongTrace(m, p, x), 4, 6)
  {
    var t := LongTrace(m, p, x);
    var b := Below(p);
    StepCombine(t[4], LessThan, Position, Immediate, p - 2, 0, 33, b);
    StepCombine(t[5], Mul, Position, Immediate, b, 7, 33, 7 * b);
    SilentTwo(Step, t, 4);
  }

  lemma LongStepsEnd(m: seq<int>, p: int, x: int)
    requires LongCode(m) && Small(p, x)
    ensures SilentFrom(Step, LongTrace(m, p, x), 6, 8)
  {
    var t := LongTrace(m, p, x);
    var b := Below(p);
    StepCombine(t[6], Add, Position, Position, 7 * b, p - 2, 31, 7 * b + (p - 2));
    StepCombine(t[7], Add, Position, Position, 10 * x, 7 * b + (p - 2), 31, 10 * x + (7 * b + (p - 2)));
    SilentTwo(Step, t, 6);
  }

  /** The trace ends on the output of the result, then the halt. */
  lemma LongEnd(m: seq<int>, p: int, x: int, rest: nat)
    requires |m| == 34 && m[28] == 4 && m[29] == 31 && m[30] == 99 && rest >= 2
    ensures var r := Run(LongTrace(m, p, x)[8], rest);
            r.Success? && r.value.outputs == [10 * x + (7 * Below(p) + (p - 2))]
  {
    var t := LongTrace(m, p, x);
    assert t[8].ic == 28 && t[8].mem[29] == 31 && t[8].mem[31] == 10 * x + (7 * Below(p) + (p - 2));
    RunOutputHalt(t[8], rest);
  }

  /** Every step of the trace before the output moves on silently. */
  lemma LongSilent(m: seq<int>, p: int, x: int)
    requires LongCode(m) && Small(p, x)
    ensures SilentFrom(Step, LongTrace(m, p, x), 0, 8)
  {
    var t := LongTrace(m, p, x);
    LongReads(m, p, x);
    LongSteps(m, p, x);
    LongStepsMid(m, p, x);
    LongStepsEnd(m, p, x);
    SilentJoin(Step, t, 0, 2, 4);
    SilentJoin(Step, t, 0, 4, 6);
    SilentJoin(Step, t, 0, 6, 8);
  }

  /** Up to its output, the program's run is the run from the last state
      of the trace, 8 turns later. */
  lemma LongDrive(m: seq<int>, p: int, x: int, fuel: nat, rest: nat)
    requires LongCode(m) && Small(p, x) && fuel == rest + 8
    ensures Run(State(m, 0, [p, x]), fuel) == Run(LongTrace(m, p, x)[8], rest)
  {
    var t := LongTrace(m, p, x);
    LongSilent(m, p, x);
    DriveSilent(Step, t, 0, fuel, rest);
    assert t[0] == State(m, 0, [p, x]);
  }

  /** The program of `amplifier_long` outputs its trace's last word 31. */
  lemma LongOutput(m: seq<int>, p: int, x: int, fuel: nat)
    requires LongCode(m) && Small(p, x) && fuel >= 10
    ensures var r := Run(State(m, 0, [p, x]), fuel);
            r.Success? && r.value.outputs == [10 * x + (7 * Below(p) + (p - 2))]
  {
    var rest := fuel - 8;
    LongDrive(m, p, x, fuel, rest);
    LongEnd(m, p, x, rest);
  }

  /** The program of `amplifier_long` outputs `10 * x + p - 2`, plus 7 when
      `p < 2`. */
  lemma LongRun(m: seq<int>, p: int, x: int, fuel: nat)
    requires LongCode(m) && Small(p, x) && fuel >= 10
    ensures var r := Run(State(m, 0, [p, x]), fuel);
            r.Success? && r.value.outputs == [10 * x + p - 2 + (if p < 2 then 7 else 0)]
  {
    var out := 10 * x + (7 * Below(p) + (p - 2));
    assert out == 10 * x + p - 2 + (if p < 2 then 7 else 0);
    LongOutput(m, p, x, fuel);
  }

  // ---------------------------------------------------------------------------
  // `amplifier_short`, `amplifier_medium` and `amplifier_long`

  lemma AmplifierShortFrom(m: seq<int>, fuel: nat)
    requires ShortCode(m) && fuel >= 6
    ensures Amplified([4, 3, 2, 1, 0], m, fuel) == Success(43210)
  {
    var phases := [4, 3, 2, 1, 0];
    ShortRun(m, 4, 0, fuel);
    ChainPasses(phases, m, fuel, 0, 0, 4);
    ShortRun(m, 3, 4, fuel);
    ChainPasses(phases, m, fuel, 1, 4, 43);
    ShortRun(m, 2, 43, fuel);
    ChainPasses(phases, m, fuel, 2, 43, 432);
    ShortRun(m, 1, 432, fuel);
    ChainPasses(phases, m, fuel, 3, 432, 4321);
    ShortRun(m, 0, 4321, fuel);
    ChainPasses(phases, m, fuel, 4, 4321, 43210);
  }

  /** `amplifier_short`. */
  lemma AmplifierShort(fuel: nat)
    requires fuel >= 6
    ensures Amplified([4, 3, 2, 1, 0], Short, fuel) == Success(43210)
  {
    ShortIsCode();
    AmplifierShortFrom(Short, fuel);
  }

  lemma AmplifierMediumFrom(m: seq<int>, fuel: nat)
    requires MediumCode(m) && fuel >= 8
    ensures Amplified([0, 1, 2, 3, 4], m, fuel) == Success(54321)
  {
    var phases := [0, 1, 2, 3, 4];
    MediumRun(m, 0, 0, fuel);
    ChainPasses(phases, m, fuel, 0, 0, 5);
    MediumRun(m, 1, 5, fuel);
    ChainPasses(phases, m, fuel, 1, 5, 54);
    MediumRun(m, 2, 54, fuel);
    ChainPasses(phases, m, fuel, 2, 54, 543);
    MediumRun(m, 3, 543, fuel);
    ChainPasses(phases, m, fuel, 3, 543, 5432);
    MediumRun(m, 4, 5432, fuel);
    ChainPasses(phases, m, fuel, 4, 5432, 54321);
  }

  /** `amplifier_medium`. */
  lemma AmplifierMedium(fuel: nat)
    requires fuel >= 8
    ensures Amplified([0, 1, 2, 3, 4], Medium, fuel) == Success(54321)
  {
    MediumIsCode();
    AmplifierMediumFrom(Medium, fuel);
  }

  lemma AmplifierLongFrom(m: seq<int>, fuel: nat)
    requires LongCode(m) && fuel >= 10
    ensures Amplified([1, 0, 4, 3, 2], m, fuel) == Success(65210)
  {
    var phases := [1, 0, 4, 3, 2];
    LongRun(m, 1, 0, fuel);
    ChainPasses(phases, m, fuel, 0, 0, 6);
    LongRun(m, 0, 6, fuel);
    ChainPasses(phases, m, fuel, 1, 6, 65);
    LongRun(m, 4, 65, fuel);
    ChainPasses(phases, m, fuel, 2, 65, 652);
    LongRun(m, 3, 652, fuel);
    ChainPasses(phases, m, fuel, 3, 652, 6521);
    LongRun(m, 2, 6521, fuel);
    ChainPasses(phases, m, fuel, 4, 6521, 65210);
  }

  /** `amplifier_long`. */
  lemma AmplifierLong(fuel: nat)
    requires fuel >= 10
    ensures Amplified([1, 0, 4, 3, 2], Long, fuel) == Success(65210)
  {
    LongIsCode();
    AmplifierLongFrom(Long, fuel);
  }
}
