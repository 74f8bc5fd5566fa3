/** Facts about division, remainder and 32-bit wrap-around that the other modules share. */
module Arith {

  const TWO32: nat := 0x1_0000_0000

  /** The value of an unsigned 32-bit (DWORD/ULONG) expression whose exact value is `x`. */
  function U32(x: int): nat {
    x % TWO32
  }

  /** ROUND_UP(n, s) computed without wrap-around. */
  function RoundUp(n: nat, s: nat): nat
    requires s > 0
  {
    (n + s - 1) / s * s
  }

  lemma MulMono(a: int, b: int, c: nat)
    requires a <= b
    ensures a * c <= b * c
  {
  }

  /** A multiple of `d` whose absolute value is below `d` is zero. */
  lemma SmallMultiple(t: int, d: nat)
    requires d > 0 && 0 - d < t * d < d
    ensures t == 0
  {
    if t >= 1 {
      MulMono(1, t, d);
    } else if t <= -1 {
      MulMono(t, -1, d);
    }
  }

  /** Quotient and remainder are the only way to write a number as q * d + r with 0 <= r < d. */
  lemma DivModUnique(q: int, r: int, d: nat)
    requires 0 <= r < d
    ensures (q * d + r) / d == q && (q * d + r) % d == r
  {
    var x := q * d + r;
    assert x == x / d * d + x % d;
    assert (q - x / d) * d == q * d - x / d * d;
    SmallMultiple(q - x / d, d);
  }

  lemma DivModIdentity(x: int, d: nat)
    requires d > 0
    ensures x == x / d * d + x % d && 0 <= x % d < d
  {
  }

  /** Adding whole multiples of the modulus does not change a remainder. */
  lemma ModAddMultiple(x: int, t: int, d: nat)
    requires d > 0
    ensures (x + t * d) % d == x % d
  {
    DivModUnique(x / d + t, x % d, d);
    assert (x / d + t) * d == x / d * d + t * d;
  }

  /** Reducing a summand first does not change the remainder of a sum. */
  lemma ModAdd(x: int, y: int, d: nat)
    requires d > 0
    ensures (x % d + y) % d == (x + y) % d
  {
    ModAddMultiple(x % d + y, x / d, d);
    assert x % d + y + x / d * d == x + y;
  }

  /** Scaling the dividend and the modulus by the same factor scales the remainder. */
  lemma ModScale(x: nat, m: nat, s: nat)
    requires m > 0 && s > 0
    ensures m * s > 0 && (x * s) % (m * s) == (x % m) * s
  {
    MulMono(1, m, s);
    MulMono(x % m, m - 1, s);
    assert (m - 1) * s == m * s - s;
    assert x * s == x / m * (m * s) + (x % m) * s by {
      assert x == x / m * m + x % m;
      assert (x / m * m) * s == x / m * (m * s);
      assert (x / m * m + x % m) * s == (x / m * m) * s + (x % m) * s;
    }
    DivModUnique(x / m, (x % m) * s, m * s);
  }

  lemma RoundUpProps(n: nat, s: nat)
    requires s > 0
    ensures RoundUp(n, s) % s == 0 && n <= RoundUp(n, s) < n + s
  {
    var q := (n + s - 1) / s;
    DivModUnique(q, 0, s);
    DivModIdentity(n + s - 1, s);
  }
}
