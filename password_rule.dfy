/**
 * What the password validator of password/src/main.rs computes, stated on
 * values: the decimal digits it reads, the flags its scan keeps, and the rule
 * those flags decide (digits never decrease, some two adjacent digits are
 * equal, and no maximal run of equal digits has odd length of 3 or more).
 */
module PasswordRule {
  import opened Decimal

  // ---------------------------------------------------------------------------
  // Digits

  /** The `len` digits the validator reads from `value`, most significant
      first, leading zeros included. The first one is `value / 10^(len-1)`,
      which is a single digit exactly when `value < 10^len`. */
  function Digits(value: nat, len: nat): (d: seq<nat>)
    requires len >= 1
    ensures |d| == len
  {
    if len == 1 then [value] else Digits(value / 10, len - 1) + [value % 10]
  }

  /** The number whose decimal digits, most significant first, are `d`. */
  function FromDigits(d: seq<nat>): nat
  {
    if d == [] then 0 else FromDigits(d[..|d| - 1]) * 10 + d[|d| - 1]
  }

  /** Reading the digits loses nothing. */
  lemma {:induction false} DigitsRoundTrip(value: nat, len: nat)
    requires len >= 1
    ensures FromDigits(Digits(value, len)) == value
  {
    if len > 1 {
      DigitsRoundTrip(value / 10, len - 1);
      var d := Digits(value, len);
      assert d[..|d| - 1] == Digits(value / 10, len - 1);
    }
  }

  /** Below `10^len` every digit read is a decimal digit. */
  lemma {:induction false} DigitsAreDecimal(value: nat, len: nat)
    requires len >= 1 && value < Pow10(len)
    ensures forall i :: 0 <= i < len ==> Digits(value, len)[i] < 10
  {
    if len > 1 {
      DivBound(value, 10, Pow10(len - 1));
      DigitsAreDecimal(value / 10, len - 1);
    }
  }

  lemma DivBound(a: nat, b: nat, c: nat)
    requires b > 0 && a < b * c
    ensures a / b < c
  {
  }

  /** The digit at position `k` as the validator extracts it: the leading one
      by `value / 10^(len-1)`, the others from the remainder below the digits
      already consumed. */
  lemma {:induction false} DigitAt(value: nat, len: nat, k: nat)
    requires 1 <= len && k < len
    ensures k == 0 ==> Digits(value, len)[k] == value / Pow10(len - 1)
    ensures k > 0 ==> Digits(value, len)[k] == (value % Pow10(len - k)) / Pow10(len - k - 1)
  {
    if len == 1 {
    } else if k == len - 1 {
    } else {
      DigitAt(value / 10, len - 1, k);
      var m := len - 1 - k;
      DivModNested(value, 10, Pow10(len - 2));
      if k > 0 {
        // ((value / 10) % 10^m) / 10^(m-1) and (value % 10^(m+1)) / 10^m are both (value / 10^m) % 10
        DivModNested(value / 10, Pow10(m - 1), 10);
        DivModNested(value, 10, Pow10(m - 1));
        DivModNested(value, Pow10(m), 10);
        assert Pow10(m - 1) * 10 == Pow10(m);
        assert Pow10(m) * 10 == Pow10(m + 1);
      }
    }
  }

  // ---------------------------------------------------------------------------
  // The scan

  /** The flags the validator keeps while it scans (`repeat_len` starts at 1). */
  datatype Flags = Flags(decrease: bool, repeat: bool, invalidRepeat: bool, repeatLen: nat)

  const Fresh := Flags(false, false, false, 1)

  /** `check_repeat` on values: a digit equal to its predecessor extends the
      current run (and a run of odd length that reaches the last digit is
      invalid); a different digit closes the run (invalid when its length is
      odd and not 1) and starts a new one. */
  function RepeatStep(f: Flags, digit: nat, previous: nat, atEnd: bool): Flags
  {
    if digit == previous then
      var runLen := f.repeatLen + 1;
      f.(repeat := true, repeatLen := runLen,
         invalidRepeat := f.invalidRepeat || (atEnd && runLen % 2 == 1))
    else
      f.(invalidRepeat := f.invalidRepeat || (f.repeatLen != 1 && f.repeatLen % 2 == 1),
         repeatLen := 1)
  }

  /** The loop of `valid` from digit index `k` on (digits `d[..k]` already read):
      the flags when it stops and how many digits it has read by then. When the
      decrease flag was raised on the previous digit, the loop runs
      `check_repeat` on one more digit and then breaks. */
  function ScanFrom(d: seq<nat>, k: nat, f: Flags): (r: (Flags, nat))
    requires 1 <= k <= |d|
    ensures k <= r.1 <= |d|
    decreases |d| - k
  {
    if k == |d| then (f, k)
    else
      var g := RepeatStep(f, d[k], d[k - 1], k + 1 == |d|);
      if f.decrease then (g, k + 1)
      else ScanFrom(d, k + 1, g.(decrease := d[k] < d[k - 1]))
  }

  /** What `valid` returns for the flags it ends with. */
  predicate Accepts(f: Flags)
  {
    !f.decrease && f.repeat && !f.invalidRepeat
  }

  /** The result of `Password::new(value, len).valid()`. */
  predicate IsValid(value: nat, len: nat)
    requires len >= 1
  {
    Accepts(ScanFrom(Digits(value, len), 1, Fresh).0)
  }

  // ---------------------------------------------------------------------------
  // The rule, stated without the scan

  predicate NonDecreasing(d: seq<nat>)
  {
    forall i :: 0 < i < |d| ==> d[i - 1] <= d[i]
  }

  /** Some two adjacent digits are equal. */
  predicate HasPair(d: seq<nat>)
  {
    exists i :: 0 < i < |d| && d[i - 1] == d[i]
  }

  /** `d[i..j]` is a maximal block of equal digits. */
  predicate MaximalRun(d: seq<nat>, i: int, j: int)
  {
    && 0 <= i < j <= |d|
    && (forall k :: i <= k < j ==> d[k] == d[i])
    && (i == 0 || d[i - 1] != d[i])
    && (j == |d| || d[j] != d[i])
  }

  predicate OddLong(n: int)
  {
    n >= 3 && n % 2 == 1
  }

  /** Some maximal run of odd length 3 or more ends before index `k`, or ends
      the sequence when `k` is its length. */
  ghost predicate OddRunBefore(d: seq<nat>, k: int)
  {
    exists i, j :: MaximalRun(d, i, j) && (j < k || j == k == |d|) && OddLong(j - i)
  }

  ghost predicate OddRun(d: seq<nat>)
  {
    exists i, j :: MaximalRun(d, i, j) && OddLong(j - i)
  }

  /** The password rule the validator implements. */
  ghost predicate Rule(d: seq<nat>)
  {
    NonDecreasing(d) && HasPair(d) && !OddRun(d)
  }

  // ---------------------------------------------------------------------------
  // The scan decides the rule

  /** The index where the run of equal digits that contains `d[i]` starts. */
  function RunStart(d: seq<nat>, i: nat): (s: nat)
    requires i < |d|
    ensures s <= i && d[s] == d[i] && (s == 0 || d[s - 1] != d[s])
    ensures forall k :: s <= k <= i ==> d[k] == d[i]
  {
    if i == 0 || d[i - 1] != d[i] then i else RunStart(d, i - 1)
  }

  /** A maximal run is determined by its end. */
  lemma {:induction false} MaximalRunStart(d: seq<nat>, i: int, j: int)
    requires MaximalRun(d, i, j)
    ensures i == RunStart(d, j - 1)
    decreases j
  {
    if i < j - 1 {
      assert d[j - 2] == d[j - 1] == d[i];
      var s := RunStart(d, j - 1);
      assert s == RunStart(d, j - 2);
      if j - 1 > i + 1 {
        MaximalRunStart(d[..j - 1], i, j - 1);
        RunStartPrefix(d, j - 1, j - 2);
      } else {
        assert j - 2 == i;
      }
    }
  }

  lemma {:induction false} RunStartPrefix(d: seq<nat>, n: nat, i: nat)
    requires i < n <= |d|
    ensures RunStart(d[..n], i) == RunStart(d, i)
    decreases i
  {
    if i > 0 && d[i - 1] == d[i] {
      RunStartPrefix(d, n, i - 1);
    }
  }

  /** The run that ends where the digits change (or at the end) is maximal. */
  lemma RunEndingAt(d: seq<nat>, j: int)
    requires 0 < j <= |d| && (j == |d| || d[j] != d[j - 1])
    ensures MaximalRun(d, RunStart(d, j - 1), j)
  {
  }

  /** What the flags say about the digits read so far. */
  ghost predicate Tracks(d: seq<nat>, k: nat, f: Flags)
    requires 1 <= k <= |d|
  {
    && f.repeat == HasPair(d[..k])
    && f.repeatLen == k - RunStart(d, k - 1)
    && f.invalidRepeat == OddRunBefore(d, k)
  }

  lemma PairStep(d: seq<nat>, k: nat)
    requires 1 <= k < |d|
    ensures HasPair(d[..k + 1]) == (HasPair(d[..k]) || d[k] == d[k - 1])
  {
    if HasPair(d[..k + 1]) && d[k] != d[k - 1] {
      var i :| 0 < i < k + 1 && d[..k + 1][i - 1] == d[..k + 1][i];
      assert d[..k][i - 1] == d[..k][i];
    }
    if HasPair(d[..k]) {
      var i :| 0 < i < k && d[..k][i - 1] == d[..k][i];
      assert d[..k + 1][i - 1] == d[..k + 1][i];
    }
    if d[k] == d[k - 1] {
      assert d[..k + 1][k - 1] == d[..k + 1][k];
    }
  }

  /** A digit equal to its predecessor closes no run; it may end the last one. */
  lemma OddRunStepEqual(d: seq<nat>, k: nat)
    requires 1 <= k < |d| && d[k] == d[k - 1]
    ensures OddRunBefore(d, k + 1) ==
      (OddRunBefore(d, k) || (k + 1 == |d| && OddLong(k + 1 - RunStart(d, k - 1))))
  {
    var s := RunStart(d, k - 1);
    assert RunStart(d, k) == s;
    if OddRunBefore(d, k + 1) && !OddRunBefore(d, k) {
      var i, j :| MaximalRun(d, i, j) && (j < k + 1 || j == k + 1 == |d|) && OddLong(j - i);
      MaximalRunStart(d, i, j);
    }
    if k + 1 == |d| && OddLong(k + 1 - s) {
      RunEndingAt(d, k + 1);
    }
    if OddRunBefore(d, k) {
      var i, j :| MaximalRun(d, i, j) && (j < k || j == k == |d|) && OddLong(j - i);
      assert j < k + 1;
    }
  }

  /** A digit different from its predecessor closes the run before it. */
  lemma OddRunStepDiffer(d: seq<nat>, k: nat)
    requires 1 <= k < |d| && d[k] != d[k - 1]
    ensures OddRunBefore(d, k + 1) == (OddRunBefore(d, k) || OddLong(k - RunStart(d, k - 1)))
  {
    var s := RunStart(d, k - 1);
    if OddRunBefore(d, k + 1) && !OddRunBefore(d, k) {
      var i, j :| MaximalRun(d, i, j) && (j < k + 1 || j == k + 1 == |d|) && OddLong(j - i);
      MaximalRunStart(d, i, j);
    }
    if OddLong(k - s) {
      RunEndingAt(d, k);
    }
    if OddRunBefore(d, k) {
      var i, j :| MaximalRun(d, i, j) && (j < k || j == k == |d|) && OddLong(j - i);
      assert j < k + 1;
    }
  }

  /** One step of the scan keeps the flags in step with the digits. */
  lemma RepeatStepTracks(d: seq<nat>, k: nat, f: Flags)
    requires 1 <= k < |d| && Tracks(d, k, f)
    ensures Tracks(d, k + 1, RepeatStep(f, d[k], d[k - 1], k + 1 == |d|))
  {
    PairStep(d, k);
    if d[k] == d[k - 1] {
      OddRunStepEqual(d, k);
    } else {
      OddRunStepDiffer(d, k);
    }
  }

  /** With no decrease from index `k` on, the scan reads every digit and its
      final flags track the whole sequence. */
  lemma {:induction false} ScanTracks(d: seq<nat>, k: nat, f: Flags)
    requires 1 <= k <= |d| && Tracks(d, k, f) && !f.decrease
    requires forall i :: k <= i < |d| ==> d[i - 1] <= d[i]
    ensures var r := ScanFrom(d, k, f); r.1 == |d| && !r.0.decrease && Tracks(d, |d|, r.0)
    decreases |d| - k
  {
    if k < |d| {
      RepeatStepTracks(d, k, f);
      var g := RepeatStep(f, d[k], d[k - 1], k + 1 == |d|);
      ScanTracks(d, k + 1, g.(decrease := false));
    }
  }

  /** A decrease anywhere ahead, or one already flagged, makes the scan end
      with the decrease flag raised. */
  lemma {:induction false} ScanSeesDecrease(d: seq<nat>, k: nat, f: Flags)
    requires 1 <= k <= |d|
    requires f.decrease || exists i :: k <= i < |d| && d[i] < d[i - 1]
    ensures ScanFrom(d, k, f).0.decrease
    decreases |d| - k
  {
    if k < |d| && !f.decrease {
      var g := RepeatStep(f, d[k], d[k - 1], k + 1 == |d|);
      ScanSeesDecrease(d, k + 1, g.(decrease := d[k] < d[k - 1]));
    }
  }

  /** The validator accepts exactly the digit sequences that follow the rule. */
  lemma ScanDecidesRule(d: seq<nat>)
    requires |d| >= 1
    ensures Accepts(ScanFrom(d, 1, Fresh).0) <==> Rule(d)
  {
    assert Tracks(d, 1, Fresh) by {
      assert !HasPair(d[..1]);
      assert !OddRunBefore(d, 1);
    }
    if NonDecreasing(d) {
      ScanTracks(d, 1, Fresh);
      assert HasPair(d[..|d|]) == HasPair(d) by { assert d[..|d|] == d; }
      assert OddRunBefore(d, |d|) == OddRun(d) by {
        if OddRun(d) {
          var i, j :| MaximalRun(d, i, j) && OddLong(j - i);
          assert j < |d| || j == |d|;
        }
      }
    } else {
      ScanSeesDecrease(d, 1, Fresh);
    }
  }

  /** The validator's answer, stated as the rule on the digits it reads. */
  lemma IsValidIsRule(value: nat, len: nat)
    requires len >= 1
    ensures IsValid(value, len) <==> Rule(Digits(value, len))
  {
    ScanDecidesRule(Digits(value, len));
  }

  // ---------------------------------------------------------------------------
  // Counting

  /** How many values in `[start, stop)` a fresh six-digit password accepts. */
  function CountValid(start: nat, stop: nat): nat
    decreases stop
  {
    if stop <= start then 0
    else CountValid(start, stop - 1) + (if IsValid(stop - 1, 6) then 1 else 0)
  }

  lemma {:induction false} CountValidBound(start: nat, stop: nat)
    ensures stop <= start ==> CountValid(start, stop) == 0
    ensures start <= stop ==> CountValid(start, stop) <= stop - start
    decreases stop
  {
    if start < stop {
      CountValidBound(start, stop - 1);
    }
  }

  /** Counting over two adjacent ranges adds up. */
  lemma {:induction false} CountValidSplit(start: nat, mid: nat, stop: nat)
    requires start <= mid <= stop
    ensures CountValid(start, stop) == CountValid(start, mid) + CountValid(mid, stop)
    decreases stop
  {
    if mid < stop {
      CountValidSplit(start, mid, stop - 1);
    }
  }
}
