/**
 * The instruction decoder of intcode/src/main.rs: the opcode and
 * parameter-mode tables, the instruction lengths, and `process_label`, which
 * splits a label into its two-digit opcode and three mode digits with Rust's
 * truncating `i32` division.
 */
module IntcodeDecode {
  import opened Options
  import opened Decimal

  datatype OpCode =
    | Add | Mul | Halt | Input | Output
    | JumpIfTrue | JumpIfFalse | LessThan | Equals | Unknown

  datatype ParameterMode = Position | Immediate

  /** The numeric code of each known opcode: the inverse of `OpCodeFrom`. */
  function Code(op: OpCode): int
    requires op != Unknown
  {
    match op
    case Add => 1
    case Mul => 2
    case Input => 3
    case Output => 4
    case JumpIfTrue => 5
    case JumpIfFalse => 6
    case LessThan => 7
    case Equals => 8
    case Halt => 99
  }

  /** `OpCode::from`: 1..8 and 99 name an opcode, every other value is
      `Unknown`. */
  function OpCodeFrom(i: int): (op: OpCode)
    ensures op == Unknown <==> !(1 <= i <= 8 || i == 99)
    ensures op != Unknown ==> Code(op) == i
  {
    match i
    case 1 => Add
    case 2 => Mul
    case 3 => Input
    case 4 => Output
    case 5 => JumpIfTrue
    case 6 => JumpIfFalse
    case 7 => LessThan
    case 8 => Equals
    case 99 => Halt
    case _ => Unknown
  }

  lemma OpCodeRoundTrip(op: OpCode)
    requires op != Unknown
    ensures OpCodeFrom(Code(op)) == op
  {
  }

  /** `ParameterMode::from`: only the digit 1 means immediate. */
  function ModeFrom(f: int): (m: ParameterMode)
    ensures m == Immediate <==> f == 1
  {
    if f == 1 then Immediate else Position
  }

  function ModeDigit(m: ParameterMode): int
  {
    if m == Immediate then 1 else 0
  }

  /** `Instruction::len`: one word for the opcode plus one per parameter. */
  function Len(op: OpCode): (n: nat)
    ensures n == 0 <==> op == Unknown
    ensures n == 1 <==> op == Halt
    ensures n == 2 <==> op in {Input, Output}
    ensures n == 3 <==> op in {JumpIfTrue, JumpIfFalse}
    ensures n == 4 <==> op in {Add, Mul, LessThan, Equals}
  {
    match op
    case Add => 4
    case Mul => 4
    case LessThan => 4
    case Equals => 4
    case Halt => 1
    case Input => 2
    case Output => 2
    case JumpIfTrue => 3
    case JumpIfFalse => 3
    case Unknown => 0
  }

  // ---------------------------------------------------------------------------
  // process_label

  /** Rust's `/` on integers: the quotient truncated toward zero. */
  function TruncDiv(a: int, b: nat): int
    requires b > 0
  {
    if a >= 0 then a / b else -((-a) / b)
  }

  /** The divisor `10_i32.pow(6 - pos)` of the turn `pos` (2, 3 or 4) of
      `process_label`'s loop. */
  function Divisor(pos: nat): nat
    requires 2 <= pos <= 4
  {
    Pow10(6 - pos)
  }

  /** What is left of the label `value` before the loop's turn `pos`. */
  function Remaining(value: int, pos: nat): int
    requires 2 <= pos <= 5
    decreases pos
  {
    if pos == 2 then value
    else
      Strip(Remaining(value, pos - 1), Divisor(pos - 1))
  }

  /** One turn's `label - (mode * div)`. */
  function Strip(a: int, div: nat): int
    requires div > 0
  {
    a - TruncDiv(a, div) * div
  }

  /** The digit the loop's turn `pos` stores in `parts[pos - 2]`. */
  function ModeAt(value: int, pos: nat): int
    requires 2 <= pos <= 4
  {
    TruncDiv(Remaining(value, pos), Divisor(pos))
  }

  datatype LabelParts = LabelParts(op: int, m1: int, m2: int, m3: int)

  function Negated(p: LabelParts): LabelParts
  {
    LabelParts(-p.op, -p.m1, -p.m2, -p.m3)
  }

  /** The parts of a label as decimal digits: its last two digits, its
      hundreds and thousands digits, and everything from the ten-thousands
      up; a negative label has the negated parts of its absolute value. */
  function SplitLabel(value: int): LabelParts
    decreases if value < 0 then 1 else 0
  {
    if value >= 0 then LabelParts(value % 100, value / 100 % 10, value / 1000 % 10, value / 10000)
    else Negated(SplitLabel(-value))
  }

  /** What the turns of `process_label`'s loop leave: the remainder after the
      last turn and the three digits in the order the loop stores them. */
  function Stages(value: int): LabelParts
  {
    LabelParts(Remaining(value, 5), ModeAt(value, 4), ModeAt(value, 3), ModeAt(value, 2))
  }

  lemma PartsIdentity(value: int)
    ensures Remaining(value, 3) == value - 10000 * ModeAt(value, 2)
    ensures Remaining(value, 4) == Remaining(value, 3) - 1000 * ModeAt(value, 3)
    ensures Remaining(value, 5) == Remaining(value, 4) - 100 * ModeAt(value, 4)
  {
    assert Divisor(2) == 10000 && Divisor(3) == 1000 && Divisor(4) == 100;
  }

  lemma StagesNonNegative(value: int)
    requires value >= 0
    ensures Stages(value) == SplitLabel(value)
  {
    assert Divisor(2) == 10000 && Divisor(3) == 1000 && Divisor(4) == 100;
    assert ModeAt(value, 2) == value / 10000;
    assert Remaining(value, 3) == value % 10000;
    DivModNested(value, 1000, 10);
    assert ModeAt(value, 3) == value / 1000 % 10;
    assert Remaining(value, 4) == value % 1000;
    DivModNested(value, 100, 10);
    assert ModeAt(value, 4) == value / 100 % 10;
    assert Remaining(value, 5) == value % 100;
  }

  /** Truncating division is odd in its dividend. */
  lemma TruncDivOdd(a: int, b: nat)
    requires b > 0
    ensures TruncDiv(-a, b) == -TruncDiv(a, b)
  {
  }

  lemma StripOdd(a: int, div: nat)
    requires div > 0
    ensures Strip(-a, div) == -Strip(a, div)
  {
    TruncDivOdd(a, div);
    var q := TruncDiv(a, div);
    assert (-q) * div == -(q * div);
  }

  lemma {:induction false} RemainingOdd(value: int, pos: nat)
    requires 2 <= pos <= 5
    ensures Remaining(-value, pos) == -Remaining(value, pos)
  {
    if pos > 2 {
      RemainingOdd(value, pos - 1);
      StripOdd(Remaining(value, pos - 1), Divisor(pos - 1));
    }
  }

  /** The loop's truncating divisions split a label into its decimal parts,
      negated for a negative label. */
  lemma StagesSplit(value: int)
    ensures Stages(value) == SplitLabel(value)
  {
    if value >= 0 {
      StagesNonNegative(value);
    } else {
      StagesNonNegative(-value);
      RemainingOdd(-value, 2);
      RemainingOdd(-value, 3);
      RemainingOdd(-value, 4);
      RemainingOdd(-value, 5);
      TruncDivOdd(Remaining(-value, 2), Divisor(2));
      TruncDivOdd(Remaining(-value, 3), Divisor(3));
      TruncDivOdd(Remaining(-value, 4), Divisor(4));
    }
  }

  /** The parts rebuild the label exactly; the opcode has at most two digits
      and the two inner modes one, with the label's sign; below 100000 the
      last mode is a digit too. */
  lemma SplitIdentity(value: int)
    ensures var p := SplitLabel(value);
            && value == p.op + 100 * p.m1 + 1000 * p.m2 + 10000 * p.m3
            && -100 < p.op < 100 && -10 < p.m1 < 10 && -10 < p.m2 < 10
            && (value >= 0 ==> p.op >= 0 && p.m1 >= 0 && p.m2 >= 0 && p.m3 >= 0)
            && (value <= 0 ==> p.op <= 0 && p.m1 <= 0 && p.m2 <= 0 && p.m3 <= 0)
            && (0 <= value < 100000 ==> p.m3 < 10)
  {
    StagesSplit(value);
    PartsIdentity(value);
    if value < 0 {
      StagesSplit(-value);
    }
  }

  /** `process_label`: three turns of a loop that strip the label's
      ten-thousands, thousands and hundreds into `parts`, leaving the opcode. */
  method ProcessLabel(value: int) returns (p: LabelParts)
    ensures p == SplitLabel(value)
  {
    var rest := value;
    var parts := new int[3](_ => 0);
    for pos := 2 to 5
      invariant rest == Remaining(value, pos)
      invariant forall k :: 2 <= k < pos ==> parts[k - 2] == ModeAt(value, k)
    {
      var div := Pow10(6 - pos);
      var mode := TruncDiv(rest, div);
      parts[pos - 2] := mode;
      rest := rest - mode * div;
    }
    p := LabelParts(rest, parts[2], parts[1], parts[0]);
    StagesSplit(value);
  }

  // ---------------------------------------------------------------------------
  // Instructions

  /** An instruction: its opcode, up to three raw parameters, the three mode
      digits and its length in memory words. */
  datatype Instruction = Instruction(
    op: OpCode, args: seq<Option<int>>, modes: seq<ParameterMode>, len: nat)

  /** `Instruction::new` on the values of `process_label`: parameters not yet
      read. */
  function Decode(value: int): (i: Instruction)
    ensures |i.args| == 3 && |i.modes| == 3
  {
    var p := SplitLabel(value);
    var op := OpCodeFrom(p.op);
    Instruction(op, [None, None, None], [ModeFrom(p.m1), ModeFrom(p.m2), ModeFrom(p.m3)], Len(op))
  }

  /** The label that spells an opcode with three parameter modes. */
  function Encode(op: OpCode, m1: ParameterMode, m2: ParameterMode, m3: ParameterMode): int
    requires op != Unknown
  {
    Code(op) + 100 * ModeDigit(m1) + 1000 * ModeDigit(m2) + 10000 * ModeDigit(m3)
  }

  /** Decoding recovers the opcode and each mode a label was written with. */
  lemma DecodeEncode(op: OpCode, m1: ParameterMode, m2: ParameterMode, m3: ParameterMode)
    requires op != Unknown
    ensures Decode(Encode(op, m1, m2, m3)) == Instruction(op, [None, None, None], [m1, m2, m3], Len(op))
  {
    var c, a, b, e := Code(op), ModeDigit(m1), ModeDigit(m2), ModeDigit(m3);
    var value := Encode(op, m1, m2, m3);
    assert SplitLabel(value) == LabelParts(c, a, b, e) by {
      assert 0 < c < 100 by { OpCodeRoundTrip(op); }
      SplitEncoded(value, c, a, b, e);
    }
    DecodeParts(value, LabelParts(c, a, b, e));
    assert OpCodeFrom(c) == op by { OpCodeRoundTrip(op); }
    assert ModeFrom(a) == m1 && ModeFrom(b) == m2 && ModeFrom(e) == m3;
  }

  lemma DecodeParts(value: int, p: LabelParts)
    requires SplitLabel(value) == p
    ensures Decode(value) == Instruction(OpCodeFrom(p.op), [None, None, None],
                                         [ModeFrom(p.m1), ModeFrom(p.m2), ModeFrom(p.m3)], Len(OpCodeFrom(p.op)))
  {
  }

  /** The parts of `c + 100 * a + 1000 * b + 10000 * e` for a two-digit `c`
      and decimal digits `a` and `b`. */
  lemma SplitEncoded(value: int, c: nat, a: nat, b: nat, e: nat)
    requires c < 100 && a < 10 && b < 10
    requires value == c + 100 * a + 1000 * b + 10000 * e
    ensures SplitLabel(value) == LabelParts(c, a, b, e)
  {
    DivModUnique(value, 100, a + 10 * b + 100 * e, c);
    DivModUnique(a + 10 * b + 100 * e, 10, b + 10 * e, a);
    DivModNested(value, 100, 10);
    DivModUnique(b + 10 * e, 10, e, b);
    DivModUnique(value, 10000, e, c + 100 * a + 1000 * b);
  }

  /** `Instruction::new`. */
  method NewInstruction(value: int) returns (i: Instruction)
    ensures i == Decode(value)
  {
    var parts := ProcessLabel(value);
    var opcode := OpCodeFrom(parts.op);
    var modes := [ModeFrom(parts.m1), ModeFrom(parts.m2), ModeFrom(parts.m3)];
    i := Instruction(opcode, [None, None, None], modes, Len(opcode));
  }
}
