/** Integer facts the icon geometry rests on. */
module IntMath {

  /** The integer square root: the `r` with `r * r <= n < (r + 1) * (r + 1)`.
      It is computed from the root of `n / 4` by doubling and a one-step
      correction. */
  function Isqrt(n: nat): (r: nat)
    ensures r * r <= n < (r + 1) * (r + 1)
    decreases n
  {
    if n < 4 then (if n == 0 then 0 else 1)
    else
      var a := Isqrt(n / 4);
      DoubledRoot(n, a);
      if (2 * a + 1) * (2 * a + 1) <= n then 2 * a + 1 else 2 * a
  }

  /** A root of `n / 4` doubled brackets `n` to within two. */
  lemma DoubledRoot(n: nat, a: nat)
    requires a * a <= n / 4 < (a + 1) * (a + 1)
    ensures (2 * a) * (2 * a) <= n < (2 * a + 2) * (2 * a + 2)
  {
    var q := n / 4;
    assert 4 * q <= n < 4 * q + 4;
    assert (2 * a) * (2 * a) == 4 * (a * a);
    assert (2 * a + 2) * (2 * a + 2) == 4 * ((a + 1) * (a + 1));
  }

  lemma SquareMonotone(a: nat, b: nat)
    requires a <= b
    ensures a * a <= b * b
  {
    assert a * a <= a * b <= b * b;
  }

  /** The bracketing `r * r <= n < (r + 1) * (r + 1)` has one solution, so
      `Isqrt` agrees with every other way of computing the floor root. */
  lemma IsqrtUnique(n: nat, r: nat)
    requires r * r <= n < (r + 1) * (r + 1)
    ensures Isqrt(n) == r
  {
    var s := Isqrt(n);
    if s < r {
      SquareMonotone(s + 1, r);
    } else if r < s {
      SquareMonotone(r + 1, s);
    }
  }

  lemma MulMonotone(k: nat, j: nat, m: nat)
    requires k <= j
    ensures k * m <= j * m
  {
  }

  /** The quotient is the `q` that brackets the dividend. */
  lemma DivExact(a: nat, d: nat, q: nat)
    requires d > 0 && q * d <= a < (q + 1) * d
    ensures a / d == q
  {
    var r := a / d;
    assert r * d <= a < (r + 1) * d;
    if r < q {
      MulMonotone(r + 1, q, d);
    } else if r > q {
      MulMonotone(q + 1, r, d);
    }
  }

  /** The quotient brackets the dividend. */
  lemma DivBrackets(a: nat, d: nat)
    requires d > 0
    ensures (a / d) * d <= a < (a / d + 1) * d
  {
  }

  lemma DivMonotone(a: nat, b: nat, d: nat)
    requires a <= b && d > 0
    ensures a / d <= b / d
  {
    if a / d > b / d {
      MulMonotone(b / d + 1, a / d, d);
    }
  }

  function Min(a: int, b: int): int {
    if a <= b then a else b
  }

  function Max(a: int, b: int): int {
    if a >= b then a else b
  }
}
