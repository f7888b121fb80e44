/** Division facts used by the payout bounds and the byte encodings. */
module Arithmetic {

  lemma {:induction false} MulMonotone(m: nat, x: int, y: int)
    requires x <= y
    ensures m * x <= m * y
  {
    assert m * y == m * x + m * (y - x);
  }

  lemma {:induction false} DivBounds(a: int, m: nat)
    requires m > 0
    ensures m * (a / m) <= a < m * (a / m) + m
  {
  }

  /** A quotient is determined by its interval. */
  lemma {:induction false} DivIs(a: int, m: nat, q: int)
    requires m > 0 && m * q <= a < m * q + m
    ensures a / m == q
  {
    DivBounds(a, m);
    var r := a / m;
    if r < q {
      MulMonotone(m, r + 1, q);
    } else if r > q {
      MulMonotone(m, q + 1, r);
    }
  }

  lemma {:induction false} DivMonotone(a: int, b: int, m: nat)
    requires m > 0 && a <= b
    ensures a / m <= b / m
  {
    DivBounds(a, m);
    DivBounds(b, m);
    if b / m < a / m {
      MulMonotone(m, b / m + 1, a / m);
    }
  }

  /** A number as a low byte and the rest: its last two bits and its quotients. */
  lemma {:induction false} ByteSplit(low: nat, high: nat)
    requires low < 256
    ensures (low + 256 * high) % 256 == low && (low + 256 * high) / 256 == high
    ensures (low + 256 * high) % 4 == low % 4 && (low + 256 * high) / 4 == low / 4 + 64 * high
  {
    DivIs(low + 256 * high, 256, high);
    DivIs(low + 256 * high, 4, low / 4 + 64 * high);
  }

  lemma {:induction false} DivStep(a: int, m: nat)
    requires m > 0
    ensures (a - m) / m == a / m - 1
  {
    DivBounds(a, m);
    assert m * (a / m - 1) == m * (a / m) - m;
    DivIs(a - m, m, a / m - 1);
  }
}
