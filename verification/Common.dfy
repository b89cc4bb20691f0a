/** Vocabulary shared by all the components: optional values, results, and the clock. */
module Common {

  datatype Option<+T> = None | Some(value: T)

  datatype Result<+T, +E> = Ok(value: T) | Err(error: E)

  /** Instants and durations are counted in microseconds, on a clock that starts at zero. */
  type Instant = nat

  const SECOND: nat := 1_000_000

  /** A Redis key written with a time to live is gone once its deadline is reached. */
  predicate Alive(deadline: Instant, now: Instant) {
    now < deadline
  }

  function Max(a: int, b: int): int {
    if a < b then b else a
  }

  lemma MulGap(d: int, p: int, q: int)
    requires d > 0 && p > q
    ensures d * p >= d * q + d
  {
    var n := p - q - 1;
    assert d * n >= 0;
    assert p == q + 1 + n;
    assert d * p == d * q + d + d * n;
  }

  lemma DivUnique(a: int, d: int, q: int, r: int)
    requires d > 0 && a == d * q + r && 0 <= r < d
    ensures a / d == q
  {
    var p := a / d;
    assert a == d * p + a % d;
    if p < q {
      MulGap(d, q, p);
    } else if q < p {
      MulGap(d, p, q);
    }
  }

  lemma DivStep(a: int, d: int)
    requires d > 0
    ensures (a + d) / d == a / d + 1
  {
    assert a == d * (a / d) + a % d;
    DivUnique(a + d, d, a / d + 1, a % d);
  }

  lemma DivMonotone(a: int, b: int, d: int)
    requires d > 0 && a <= b
    ensures a / d <= b / d
  {
    var p, q := a / d, b / d;
    assert a == d * p + a % d && b == d * q + b % d;
    if p > q {
      MulGap(d, p, q);
    }
  }
}
