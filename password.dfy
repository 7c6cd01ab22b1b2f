/**
 * The password validator of password/src/main.rs: a `Password` object that
 * scans its value digit by digit, updating its flags in place, and `check`,
 * which counts the values of a range that a fresh six-digit password accepts.
 */
module PasswordCheck {
  import opened PasswordRule
  import opened Decimal

  /** What is left of `value` once the validator has subtracted its first `j`
      digits. */
  function Remainder(value: nat, len: nat, j: nat): nat
    requires j < len
  {
    if j == 0 then value else value % Pow10(len - j)
  }

  /** One turn of the validator's loop on digit index `j + 1`: the current
      remainder over the current divisor gives the previous digit, subtracting
      it leaves the next remainder, and that over the next divisor gives the
      next digit. */
  lemma ReadStep(value: nat, len: nat, j: nat, e: nat)
    requires j + 1 < len && e == len - j - 1
    ensures Remainder(value, len, j) / Pow10(e) == Digits(value, len)[j]
    ensures Remainder(value, len, j) - Pow10(e) * Digits(value, len)[j] == Remainder(value, len, j + 1)
    ensures Pow10(e) / 10 == Pow10(e - 1)
    ensures Remainder(value, len, j + 1) / Pow10(e - 1) == Digits(value, len)[j + 1]
  {
    DigitAt(value, len, j);
    DigitAt(value, len, j + 1);
    SubtractDigit(value, len, j);
  }

  lemma SubtractDigit(value: nat, len: nat, j: nat)
    requires j + 1 < len
    ensures Remainder(value, len, j) - Pow10(len - j - 1) * (Remainder(value, len, j) / Pow10(len - j - 1))
            == Remainder(value, len, j + 1)
  {
    var rem, div := Remainder(value, len, j), Pow10(len - j - 1);
    SubtractQuotient(rem, div);
    if j > 0 {
      assert Pow10(len - j) == div * 10;
      DivModNested(value, div, 10);
    }
  }

  lemma SubtractQuotient(a: nat, b: nat)
    requires b > 0
    ensures a - b * (a / b) == a % b
  {
  }

  /** A turn of the scan after the decrease flag was raised reads digit
      `j + 1` and stops. */
  lemma ScanBreaks(d: seq<nat>, j: nat, f: Flags, atEnd: bool)
    requires j + 1 < |d| && f.decrease && atEnd == (j + 2 == |d|)
    ensures ScanFrom(d, j + 1, f) == (RepeatStep(f, d[j + 1], d[j], atEnd), j + 1 + 1)
  {
  }

  /** Any other turn reads digit `j + 1` and goes on. */
  lemma ScanGoesOn(d: seq<nat>, j: nat, f: Flags, atEnd: bool)
    requires j + 1 < |d| && !f.decrease && atEnd == (j + 2 == |d|)
    ensures var g := RepeatStep(f, d[j + 1], d[j], atEnd);
            ScanFrom(d, j + 1, f) == ScanFrom(d, j + 1 + 1, g.(decrease := d[j + 1] < d[j]))
  {
  }

  /** Past the last digit the scan stops. */
  lemma ScanEnds(d: seq<nat>, j: nat, f: Flags)
    requires j + 1 == |d|
    ensures ScanFrom(d, j + 1, f) == (f, j + 1)
  {
  }

  class Password {
    var decrease: bool
    var repeat: bool
    var invalidRepeat: bool
    var repeatLen: nat
    const len: nat
    var value: nat

    /** The flags of this password as a value. */
    function State(): Flags
      reads this
    {
      Flags(decrease, repeat, invalidRepeat, repeatLen)
    }

    /** `Password::new`: every flag clear, a current run of length 1. */
    constructor (val: nat, len: nat)
      ensures State() == Fresh
      ensures this.len == len && value == val
    {
      decrease, repeat, invalidRepeat := false, false, false;
      repeatLen := 1;
      this.len := len;
      value := val;
    }

    /** `check_repeat`: updates the repeat flags for `digit` after `previous`. */
    method CheckRepeat(digit: nat, previous: nat, atEnd: bool)
      modifies this
      ensures State() == RepeatStep(old(State()), digit, previous, atEnd)
      ensures value == old(value)
    {
      if digit == previous {
        repeat := true;
        repeatLen := repeatLen + 1;
        if atEnd && repeatLen % 2 == 1 { invalidRepeat := true; }
      } else {
        if repeatLen != 1 && repeatLen % 2 == 1 { invalidRepeat := true; }
        repeatLen := 1;
      }
    }

    /** `valid`: reads the `len` digits of `value`, most significant first,
        scanning them with the flags it holds. `10_u32.pow(len - 1)` needs
        `1 <= len <= 10`. On a fresh password the answer is the password rule
        on those digits. */
    method Valid() returns (ok: bool)
      requires 1 <= len <= 10
      modifies this
      ensures var r := ScanFrom(Digits(old(value), len), 1, old(State()));
              && State() == r.0
              && value == Remainder(old(value), len, r.1 - 1)
              && ok == Accepts(r.0)
      ensures old(State()) == Fresh ==> (ok <==> Rule(Digits(old(value), len)))
    {
      ghost var v0, f0 := value, State();
      ghost var d := Digits(value, len);
      ghost var consumed, broke := len, false;
      // `j` is the index of the digit in `previous`, `e` the exponent of `div`.
      ghost var j, e := 0, len - 1;
      DigitAt(v0, len, 0);
      var div := Pow10(len - 1);
      var previous := value / div;
      var pos := 2;
      while pos < len + 1
        invariant 2 <= pos <= len + 1 && j == pos - 2 && e == len - pos + 1
        invariant div == Pow10(e)
        invariant previous == d[j]
        invariant value == Remainder(v0, len, j)
        invariant ScanFrom(d, j + 1, State()) == ScanFrom(d, 1, f0)
      {
        ghost var f := State();
        ReadStep(v0, len, j, e);
        value := value - div * previous;
        div := div / 10;
        var digit := value / div;
        CheckRepeat(digit, previous, pos == len);
        if decrease {
          ScanBreaks(d, j, f, pos == len);
          consumed, broke := j + 1 + 1, true;
          assert ScanFrom(d, 1, f0) == (State(), consumed);
          break;
        } else {
          ScanGoesOn(d, j, f, pos == len);
          decrease := digit < previous;
        }
        previous := digit;
        pos := pos + 1;
        j, e := j + 1, e - 1;
      }
      if !broke {
        ScanEnds(d, j, State());
        consumed := j + 1;
        assert ScanFrom(d, 1, f0) == (State(), consumed);
      }
      assert ScanFrom(d, 1, f0) == (State(), consumed);
      assert value == Remainder(v0, len, consumed - 1);
      assert d == Digits(old(value), len) && f0 == old(State());
      ok := !decrease && repeat && !invalidRepeat;
      if f0 == Fresh {
        assert ok <==> Rule(d) by { ScanDecidesRule(d); }
      }
    }
  }

  /** `check`: how many values in `[start, stop)` a fresh six-digit password
      accepts. */
  method Check(start: nat, stop: nat) returns (potential: nat)
    ensures potential == CountValid(start, stop)
    ensures start <= stop ==> potential <= stop - start
  {
    potential := 0;
    var pass := start;
    while pass < stop
      invariant start <= pass && (pass <= stop || pass == start)
      invariant potential == CountValid(start, pass)
    {
      var password := new Password(pass, 6);
      var ok := password.Valid();
      if ok { potential := potential + 1; }
      pass := pass + 1;
    }
    CountValidBound(start, stop);
  }

  // The unit tests of the validator, on fresh six-digit passwords.

  lemma SimpleValid()
    ensures IsValid(123445, 6)
  {
    assert Digits(123445, 6) == [1, 2, 3, 4, 4, 5];
  }

  lemma InvalidDecrease()
    ensures !IsValid(122144, 6)
  {
    assert Digits(122144, 6) == [1, 2, 2, 1, 4, 4];
  }

  lemma InvalidNoRepeat()
    ensures !IsValid(123456, 6)
  {
    assert Digits(123456, 6) == [1, 2, 3, 4, 5, 6];
  }

  lemma InvalidTriple()
    ensures !IsValid(122234, 6)
  {
    assert Digits(122234, 6) == [1, 2, 2, 2, 3, 4];
  }

  lemma ValidQuad()
    ensures IsValid(111123, 6)
  {
    assert Digits(111123, 6) == [1, 1, 1, 1, 2, 3];
  }

  lemma InvalidTripleWithValidRepeat()
    ensures !IsValid(222334, 6)
  {
    assert Digits(222334, 6) == [2, 2, 2, 3, 3, 4];
  }

  lemma InvalidTripleAtEnd()
    ensures !IsValid(112333, 6)
  {
    assert Digits(112333, 6) == [1, 1, 2, 3, 3, 3];
  }

  lemma InvalidTripleEndWithValidDouble()
    ensures !IsValid(122444, 6)
  {
    assert Digits(122444, 6) == [1, 2, 2, 4, 4, 4];
  }

  lemma Fiver()
    ensures !IsValid(122222, 6)
  {
    assert Digits(122222, 6) == [1, 2, 2, 2, 2, 2];
  }

  lemma DoubleTriple()
    ensures !IsValid(111222, 6)
  {
    assert Digits(111222, 6) == [1, 1, 1, 2, 2, 2];
  }

  lemma TripleDouble()
    ensures IsValid(112233, 6)
  {
    assert Digits(112233, 6) == [1, 1, 2, 2, 3, 3];
  }

  lemma TripleThenDouble()
    ensures !IsValid(111233, 6)
  {
    assert Digits(111233, 6) == [1, 1, 1, 2, 3, 3];
  }

  lemma FourEnder()
    ensures IsValid(123333, 6)
  {
    assert Digits(123333, 6) == [1, 2, 3, 3, 3, 3];
  }

  lemma Sixer()
    ensures IsValid(111111, 6)
  {
    assert Digits(111111, 6) == [1, 1, 1, 1, 1, 1];
  }

  lemma FiveStarter()
    ensures !IsValid(444445, 6)
  {
    assert Digits(444445, 6) == [4, 4, 4, 4, 4, 5];
  }
}
