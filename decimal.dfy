/** Powers of ten and facts about Euclidean division by them, shared by the
    password validator and the Intcode label decoder. */
module Decimal {
  function Pow10(n: nat): (r: nat)
    ensures r >= 1
  {
    if n == 0 then 1 else 10 * Pow10(n - 1)
  }

  lemma MultipleBelow(x: int, b: nat)
    ensures x >= 1 ==> x * b >= b
  {
    if x >= 1 {
      assert x * b == (x - 1) * b + b;
    }
  }

  /** Euclidean division is unique. */
  lemma DivModUnique(a: nat, b: nat, q: nat, r: nat)
    requires 0 <= r < b && a == q * b + r
    ensures q == a / b && r == a % b
  {
    var q', r' := a / b, a % b;
    assert (q - q') * b == r' - r;
    MultipleBelow(q - q', b);
    MultipleBelow(q' - q, b);
  }

  /** The two-level quotient and remainder of `a` by `b` then `c`, as one
      quotient and remainder by `b * c`. */
  lemma NestedSplit(a: nat, b: nat, c: nat, q1: nat, r1: nat, q2: nat, r2: nat)
    requires b > 0 && c > 0
    requires a == q1 * b + r1 && r1 < b && q1 == q2 * c + r2 && r2 < c
    ensures a == q2 * (b * c) + (r2 * b + r1) && r2 * b + r1 < b * c
  {
    assert q1 * b == q2 * (b * c) + r2 * b;
    MultipleBelow(c - r2, b);
    assert (c - r2) * b == b * c - r2 * b;
  }

  /** Dividing by `b` then by `c` is dividing by `b * c`; what `a % (b * c)`
      keeps is the `c`-digit `(a / b) % c` above the remainder `a % b`. */
  lemma DivModNested(a: nat, b: nat, c: nat)
    requires b > 0 && c > 0
    ensures a / b / c == a / (b * c)
    ensures (a % (b * c)) / b == (a / b) % c
    ensures (a % (b * c)) % b == a % b
  {
    var q1, r1 := a / b, a % b;
    var q2, r2 := q1 / c, q1 % c;
    NestedSplit(a, b, c, q1, r1, q2, r2);
    DivModUnique(a, b * c, q2, r2 * b + r1);
    DivModUnique(r2 * b + r1, b, r2, r1);
  }
}
